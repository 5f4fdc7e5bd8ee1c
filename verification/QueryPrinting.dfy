/** How the text of a condition is parsed, part by part. */
module QueryPrinting {
  import opened WordSizes
  import opened Options
  import opened Utf8
  import opened QueryGrammar
  import opened QueryReader
  import opened QueryLocality
  import opened QueryShapes
  import opened QueryJoin
  import opened QueryBuilder

  /** The conditions the grammar can express. */
  predicate Legal(c: Cond) {
    IsTag(c.tag) &&
    match c.operand
    case Str(s) => QuoteFree(s) && (c.op == OpEqual || c.op == OpContains)
    case Int(n) => 0 <= n < INT64_LIMIT && c.op != OpContains
    case _ => c.op != OpContains
  }

  predicate AllLegal(cs: seq<Cond>) {
    forall i :: 0 <= i < |cs| ==> Legal(cs[i])
  }

  // ---- Every condition read is legal -------------------------------------------------------

  lemma {:induction false} ChunkLegal(lib: Library, t: string, x: Chunk)
    requires SoundChunk(t, x)
    ensures match ChunkCond(lib, t, x) case None => true case Some(c) => Legal(c)
  {
    hide IsTag, DecimalValue, QuoteFree;
    var text := t[x.piece.begin..x.piece.end];
    assert x.piece.kind == Number ==> NumberGoesOn(text[0]);
  }

  lemma {:induction false} ConditionLegal(lib: Library, t: string, r: Outcome)
    requires ConditionRule(t, r).Match? && r.pos <= |t| && AllLegal(ReadTokens(lib, t, r.tokens).out)
    ensures AllLegal(ReadTokens(lib, t, ConditionRule(t, r).tokens).out)
  {
    hide ConditionRule, SoundChunk, FormedChunk, ChunkCond, ReadTokens, Legal;
    var x := ConditionShape(t, r);
    SoundFormed(t, x, |t|);
    ReadChunk(lib, t, r.tokens, x);
    ChunkLegal(lib, t, x);
  }

  lemma {:induction false} RestLegal(lib: Library, t: string, r: Outcome)
    requires r.Match? && r.pos <= |t| && AllLegal(ReadTokens(lib, t, r.tokens).out)
    ensures AllLegal(ReadTokens(lib, t, Rest(t, r).tokens).out)
    decreases |t| - r.pos
  {
    hide Gap, AndRule, ConditionRule, Fold, AllLegal;
    if More(t, r).Match? {
      AndReads(lib, t, r, t);
      ConditionLegal(lib, t, Gap(t, AndRule(t, Gap(t, r))));
      RestLegal(lib, t, More(t, r));
    }
  }

  /** Every condition read from an ASCII query is one the grammar can express. */
  lemma {:induction false} ListingLegal(lib: Library, s: string)
    requires Parseable(s) && Ascii(s)
    ensures AllLegal(Listing(lib, s).out)
  {
    hide Rest, ConditionRule, Parse, Fold, Encode;
    var t := Quote(s);
    EncodeLength(t);
    EndsAtQuote(s);
    OpeningIsCondition(t);
    ReadNothing(lib, t);
    ConditionLegal(lib, t, Match(1, []));
    RestLegal(lib, t, Opening(t));
    ReadMark(lib, t, Rest(t, Opening(t)).tokens, Token(E, 0, |s| + 2));
  }

  // ---- Decimal numbers -----------------------------------------------------------------------

  lemma {:induction false} DecimalRoundTrip(n: nat)
    ensures Decimal(n) != "" && AllDigits(Decimal(n)) && DecimalValue(Decimal(n)) == n
    ensures if n == 0 then Decimal(n) == "0" else Decimal(n)[0] != '0'
  {
    if n < 10 {
      assert Decimal(n)[..0] == "" && DigitValue(DigitChar(n)) == n;
    } else {
      DecimalRoundTrip(n / 10);
      var s := Decimal(n);
      assert s[..|s| - 1] == Decimal(n / 10);
      assert DigitValue(DigitChar(n % 10)) == n % 10;
    }
  }

  /** Printed integers are read back, if they fit 64 bits. */
  lemma {:induction false} IntRoundTrip(n: int)
    ensures ParseInt(FormatInt(n)) == if -0x8000_0000_0000_0000 <= n < 0x8000_0000_0000_0000 then Some(n) else None
    ensures n >= 0 ==> ParseInt("+" + FormatInt(n)) == ParseInt(FormatInt(n))
  {
    hide Decimal, DecimalValue;
    var m: nat := if n < 0 then -n else n;
    DecimalRoundTrip(m);
    if n < 0 {
      assert ("-" + Decimal(m))[1..] == Decimal(m);
    } else {
      assert IsDigit(Decimal(m)[0]);
      assert ("+" + Decimal(m))[1..] == Decimal(m);
    }
  }

  lemma {:induction false} DigitsRun(t: string, r: Outcome, e: nat)
    requires r.Match? && r.pos <= e < |t| && !IsDigit(t[e])
    requires forall i :: r.pos <= i < e ==> IsDigit(t[i])
    ensures Digits(t, r).Match? && Digits(t, r).pos == e
    decreases e - r.pos
  {
    if r.pos < e {
      DigitsRun(t, Dig(t, r), e);
    }
  }

  lemma {:induction false} NumberReads(t: string, r: Outcome, n: nat, e: nat)
    requires r.Match? && r.pos <= e < |t| && !NumberGoesOn(t[e]) && t[r.pos..e] == Decimal(n)
    ensures NumberRule(t, r).Match? && NumberRule(t, r).pos == e && SeesDigit(t, r)
  {
    hide Digits, Decimal;
    var s := t[r.pos..e];
    DecimalRoundTrip(n);
    assert forall i :: 0 <= i < |s| ==> s[i] == t[r.pos + i];
    assert t[r.pos] == s[0] && IsDigit(s[0]);
    if n == 0 {
      assert Sees(t, r, "0");
    } else {
      assert s[0] in "123456789";
      assert Sees(t, r, "123456789") && !Sees(t, r, "0");
      forall i | r.pos <= i < e ensures IsDigit(t[i]) {
        assert t[i] == s[i - r.pos];
      }
      DigitsRun(t, Advance(r), e);
      assert !Sees(t, Digits(t, Advance(r)), ".");
    }
  }

  lemma {:induction false} UnquotedRun(t: string, r: Outcome, e: nat)
    requires r.Match? && r.pos <= e < |t| && t[e] == '\''
    requires forall i :: r.pos <= i < e ==> t[i] != '"' && t[i] != '\''
    ensures Unquoted(t, r).Match? && Unquoted(t, r).pos == e
    decreases e - r.pos
  {
    if r.pos < e {
      UnquotedRun(t, Advance(r), e);
    }
  }

  lemma {:induction false} ValueReads(t: string, r: Outcome, s: string, e: nat)
    requires r.Match? && r.pos <= e <= |t| && QuoteFree(s) && t[r.pos..e] == "'" + s + "'"
    ensures ValueRule(t, r).Match? && ValueRule(t, r).pos == e && Sees(t, r, "'")
  {
    hide Unquoted;
    var x := t[r.pos..e];
    assert |x| == |s| + 2 && x[0] == '\'' && x[|s| + 1] == '\'';
    assert t[r.pos] == x[0] && t[e - 1] == x[|s| + 1];
    forall i | r.pos + 1 <= i < e - 1 ensures t[i] != '"' && t[i] != '\'' {
      assert t[i] == x[i - r.pos] == s[i - r.pos - 1];
    }
    UnquotedRun(t, Advance(r), e - 1);
    assert Sees(t, Unquoted(t, Advance(r)), "'");
  }

  // ---- Operators -----------------------------------------------------------------------------

  function RuleOf(op: Operator): (rule: Rule)
    ensures IsOperator(rule) && OperatorOf(rule) == op
  {
    match op
    case OpLessEqual => Le
    case OpGreaterEqual => Ge
    case OpLess => L
    case OpGreater => G
    case OpEqual => Equal
    case OpContains => Contains
  }

  function OperandAfter(t: string, s: Outcome, op: Operator): Outcome {
    match op
    case OpContains => ValueRule(t, s)
    case OpEqual => Or(Scalar(t, s), ValueRule(t, s))
    case _ => Scalar(t, s)
  }

  /** The state after an operator and the blank behind it. */
  function AfterOperator(r: Outcome, op: Operator): Outcome
    requires r.Match?
  {
    var q := r.pos + |OperatorText(op)|;
    Match(q + 1, r.tokens + [Token(RuleOf(op), r.pos, q)])
  }

  /** At `r` stands the operator, then one blank. */
  ghost predicate OperatorAt(t: string, r: Outcome, op: Operator) {
    r.Match? &&
    var q := r.pos + |OperatorText(op)|;
    q + 1 < |t| && t[r.pos..q] == OperatorText(op) && t[q] == ' ' && t[q + 1] != ' '
  }

  lemma {:induction false} MarkedBlank(t: string, r: Outcome, op: Operator, s: Outcome)
    requires OperatorAt(t, r, op) && s == Match(r.pos + |OperatorText(op)|, r.tokens)
    ensures Blank(t, Mark(RuleOf(op), r.pos, s)) == AfterOperator(r, op)
  {
    hide Blank;
    OneBlank(t, Mark(RuleOf(op), r.pos, s));
  }

  lemma {:induction false} TwoCharOperator(t: string, r: Outcome, op: Operator)
    requires OperatorAt(t, r, op) && (op == OpLessEqual || op == OpGreaterEqual)
    ensures Comparison(t, r) == OperandAfter(t, AfterOperator(r, op), op)
  {
    hide Scalar, Blank, Mark, Plain, EqualAlt, ContainsAlt;
    var x := t[r.pos..r.pos + 2];
    assert t[r.pos] == x[0] && t[r.pos + 1] == x[1];
    var one, two := Match(r.pos + 1, r.tokens), Match(r.pos + 2, r.tokens);
    MarkedBlank(t, r, op, two);
    PlainByFirst(t, r);
    assert Sees(t, one, "=");
    if op == OpLessEqual {
      assert Chr(t, r, "<") == one && Chr(t, one, "=") == two && !Sees(t, r, ">") && !Sees(t, r, "=");
      if LAlt(t, r).Match? { ScalarNotEquals(t, one, L, r.pos); }
    } else {
      assert Chr(t, r, ">") == one && Chr(t, one, "=") == two && !Sees(t, r, "<") && !Sees(t, r, "=");
      if GAlt(t, r).Match? { ScalarNotEquals(t, one, G, r.pos); }
    }
  }

  lemma {:induction false} OneCharOperator(t: string, r: Outcome, op: Operator)
    requires OperatorAt(t, r, op) && (op == OpLess || op == OpGreater || op == OpEqual)
    ensures Comparison(t, r) == OperandAfter(t, AfterOperator(r, op), op)
  {
    hide Scalar, ValueRule, Blank, Mark, Plain;
    var x := t[r.pos..r.pos + 1];
    assert t[r.pos] == x[0] && t[r.pos + 1] == ' ';
    var s := Match(r.pos + 1, r.tokens);
    MarkedBlank(t, r, op, s);
    PlainByFirst(t, r);
    assert !Sees(t, s, "=");
    if op == OpLess {
      assert Chr(t, r, "<") == s && !Sees(t, r, ">") && !Sees(t, r, "=");
    } else if op == OpGreater {
      assert Chr(t, r, ">") == s && !Sees(t, r, "<") && !Sees(t, r, "=");
    } else {
      assert Chr(t, r, "=") == s && !Sees(t, r, "<") && !Sees(t, r, ">");
    }
  }

  lemma {:induction false} ContainsText(t: string, r: Outcome)
    requires r.Match? && r.pos + 8 <= |t| && t[r.pos..r.pos + 8] == "CONTAINS"
    ensures ContainsWord(t, r) == Match(r.pos + 8, r.tokens) && t[r.pos] == 'C'
  {
    var x := t[r.pos..r.pos + 8];
    assert forall i :: 0 <= i < 8 ==> x[i] == t[r.pos + i];
    assert x[0] == 'C' && x[1] == 'O' && x[2] == 'N' && x[3] == 'T' && x[4] == 'A' && x[5] == 'I' && x[6] == 'N' && x[7] == 'S';
  }

  lemma {:induction false} ContainsOperator(t: string, r: Outcome)
    requires OperatorAt(t, r, OpContains)
    ensures Comparison(t, r) == OperandAfter(t, AfterOperator(r, OpContains), OpContains)
  {
    hide Scalar, ValueRule, Blank, Mark, Plain, ContainsWord;
    ContainsText(t, r);
    MarkedBlank(t, r, OpContains, Match(r.pos + 8, r.tokens));
    PlainByFirst(t, r);
    assert !Sees(t, r, "<") && !Sees(t, r, ">") && !Sees(t, r, "=");
  }

  lemma {:induction false} OperatorReads(t: string, r: Outcome, op: Operator)
    requires OperatorAt(t, r, op)
    ensures Comparison(t, r) == OperandAfter(t, AfterOperator(r, op), op)
  {
    hide OperatorAt, OperandAfter, Comparison;
    match op {
      case OpLessEqual => TwoCharOperator(t, r, op);
      case OpGreaterEqual => TwoCharOperator(t, r, op);
      case OpContains => ContainsOperator(t, r);
      case _ => OneCharOperator(t, r, op);
    }
  }

  // ---- One condition -------------------------------------------------------------------------

  function KindOf(x: Operand): Rule
    requires Prints(x)
  {
    if x.Str? then Value else Number
  }

  lemma {:induction false} StringReads(t: string, s: Outcome, c: Cond, e: nat) returns (x: Piece)
    requires Legal(c) && c.operand.Str?
    requires s.Match? && s.pos <= e < |t| && t[s.pos..e] == OperandText(c.operand)
    ensures var o := OperandAfter(t, s, c.op);
            o.Match? && o.pos == e && o.tokens == s.tokens + x.Tokens()
    ensures SoundPiece(t, x) && x.kind == Value && x.begin == s.pos && x.end == e
  {
    hide ValueRule, Scalar, QuoteFree, IsTag, SoundPiece;
    ScalarOrValueByFirst(t, s);
    ValueReads(t, s, c.operand.s, e);
    x := ValueShape(t, s);
  }

  /** Where a numeral stands, the operand is a number after every operator but CONTAINS. */
  lemma {:induction false} NumberOperand(t: string, s: Outcome, op: Operator)
    requires SeesDigit(t, s) && op != OpContains
    ensures OperandAfter(t, s, op) == NumberRule(t, s)
  {
    hide NumberRule, ValueRule, Scalar, DateRule, TimeRule;
    ScalarOrValueByFirst(t, s);
    ScalarByFirst(t, s);
  }

  lemma {:induction false} IntReads(t: string, s: Outcome, c: Cond, e: nat) returns (x: Piece)
    requires Legal(c) && c.operand.Int?
    requires s.Match? && s.pos <= e < |t| && !NumberGoesOn(t[e]) && t[s.pos..e] == OperandText(c.operand)
    ensures var o := OperandAfter(t, s, c.op);
            o.Match? && o.pos == e && o.tokens == s.tokens + x.Tokens()
    ensures SoundPiece(t, x) && x.kind == Number && x.begin == s.pos && x.end == e
  {
    hide NumberRule, OperandAfter, Decimal, IsTag, SoundPiece;
    NumberReads(t, s, c.operand.n, e);
    NumberOperand(t, s, c.op);
    x := NumberShape(t, s);
  }

  lemma {:induction false} OperandMeans(lib: Library, x: Operand)
    requires Prints(x) && (x.Int? ==> 0 <= x.n < INT64_LIMIT)
    ensures ReadOperand(lib, KindOf(x), OperandText(x)) == Some(x)
  {
    if x.Int? {
      DecimalRoundTrip(x.n);
      var s := Decimal(x.n);
      assert !IsDigit('.') && '.' !in s;
    } else {
      var s := "'" + x.s + "'";
      assert s[1..|s| - 1] == x.s;
    }
  }

  lemma {:induction false} TagRun(t: string, p: nat, q: nat)
    requires p <= q < |t| && t[q] in RESERVED && forall i :: p <= i < q ==> t[i] !in RESERVED
    ensures TagEnd(t, p) == q
    decreases q - p
  {
    if p < q {
      TagRun(t, p + 1, q);
    }
  }

  /** Where the parts of a printed condition stand: it begins at `b` and ends at `e`. */
  ghost predicate Layout(t: string, c: Cond, b: nat, p: nat, q: nat, e: nat)
    requires Prints(c.operand)
  {
    && p == b + |c.tag| && q == p + 1 + |OperatorText(c.op)| && e == q + 1 + |OperandText(c.operand)|
    && e < |t| && !NumberGoesOn(t[e]) && t[p] == ' ' && t[q] == ' '
    && t[b..p] == c.tag && t[p + 1..q] == OperatorText(c.op) && t[q + 1..e] == OperandText(c.operand)
  }

  /** Where tag, operator and operand are in the text of a condition. */
  lemma {:induction false} CondTextParts(c: Cond)
    requires Prints(c.operand)
    ensures var x := CondText(c);
            var p := |c.tag|;
            var q := p + 1 + |OperatorText(c.op)|;
            && |x| == q + 1 + |OperandText(c.operand)|
            && x[0..p] == c.tag && x[p] == ' ' && x[p + 1..q] == OperatorText(c.op)
            && x[q] == ' ' && x[q + 1..|x|] == OperandText(c.operand)
  {
    hide OperatorText, OperandText;
    assert CondText(c) == c.tag + " " + OperatorText(c.op) + " " + OperandText(c.operand);
  }

  lemma {:induction false} LayoutAt(t: string, c: Cond, b: nat) returns (p: nat, q: nat, e: nat)
    requires Prints(c.operand) && b + |CondText(c)| < |t| && t[b..b + |CondText(c)|] == CondText(c)
    requires !NumberGoesOn(t[b + |CondText(c)|])
    ensures Layout(t, c, b, p, q, e) && e == b + |CondText(c)|
  {
    hide OperatorText, OperandText, CondText;
    CondTextParts(c);
    var x := CondText(c);
    p := b + |c.tag|;
    q := p + 1 + |OperatorText(c.op)|;
    e := q + 1 + |OperandText(c.operand)|;
    Cut(t, x, b, 0, p - b);
    Cut(t, x, b, p + 1 - b, q - b);
    Cut(t, x, b, q + 1 - b, e - b);
    assert t[p] == t[b..e][p - b] && t[q] == t[b..e][q - b];
  }

  lemma {:induction false} Cut(t: string, x: string, b: nat, i: nat, j: nat)
    requires b + |x| <= |t| && t[b..b + |x|] == x && i <= j <= |x|
    ensures t[b + i..b + j] == x[i..j]
  {
    var whole, part, same := t[b..b + |x|], t[b + i..b + j], x[i..j];
    forall k | 0 <= k < |part| ensures part[k] == same[k] {
      assert part[k] == t[b + i + k] == whole[i + k];
    }
  }

  lemma {:induction false} SolidParts(t: string, c: Cond, b: nat, p: nat, q: nat, e: nat)
    requires Prints(c.operand) && Layout(t, c, b, p, q, e)
    ensures q + 1 < e && t[p + 1] != ' ' && t[q + 1] != ' '
    ensures c.operand.Int? && c.operand.n < 0 ==> t[q + 1] == '-'
  {
    hide Decimal, IsNumeral;
    var op, x := t[p + 1..q], t[q + 1..e];
    assert t[p + 1] == op[0] == OperatorText(c.op)[0];
    if c.operand.Int? && c.operand.n >= 0 {
      DecimalRoundTrip(c.operand.n);
    }
    assert t[q + 1] == x[0] == OperandText(c.operand)[0];
  }

  /** After the tag and one blank comes the operator. */
  lemma {:induction false} TagReads(t: string, c: Cond, r: Outcome, b: nat, p: nat, q: nat, e: nat)
    requires Prints(c.operand) && Layout(t, c, b, p, q, e)
    requires r.Match? && r.pos == b < p && TagEnd(t, b) == p
    ensures Blank(t, TagRule(t, r)) == Match(p + 1, r.tokens + [Token(PegText, b, p), Token(Tag, b, p)])
    ensures OperatorAt(t, Match(p + 1, r.tokens + [Token(PegText, b, p), Token(Tag, b, p)]), c.op)
  {
    hide Blank, OperatorText, OperandText, TagEnd;
    SolidParts(t, c, b, p, q, e);
    var tag := TagRule(t, r);
    assert tag.tokens == r.tokens + [Token(PegText, b, p), Token(Tag, b, p)];
    OneBlank(t, tag);
  }

  /** The text of a legal condition, wherever it stands, parses to one chunk that covers it. */
  lemma {:induction false} OperandReads(t: string, s: Outcome, c: Cond, e: nat) returns (x: Piece)
    requires Legal(c) && Prints(c.operand)
    requires s.Match? && s.pos <= e < |t| && !NumberGoesOn(t[e]) && t[s.pos..e] == OperandText(c.operand)
    ensures var o := OperandAfter(t, s, c.op);
            o.Match? && o.pos == e && o.tokens == s.tokens + x.Tokens()
    ensures FormedPiece(|t|, x) && x.kind == KindOf(c.operand) && x.begin == s.pos && x.end == e
  {
    hide OperandAfter, Legal, OperandText;
    if c.operand.Str? {
      x := StringReads(t, s, c, e);
    } else {
      x := IntReads(t, s, c, e);
    }
  }

  lemma {:induction false} ChunkAppended(tokens: seq<Token>, x: Chunk)
    ensures tokens + x.Tokens() == tokens + [Token(PegText, x.tagBegin, x.tagEnd), Token(Tag, x.tagBegin, x.tagEnd)]
                                   + [x.op] + x.piece.Tokens() + [Token(Condition, x.tagBegin, x.end)]
  {
  }

  lemma {:induction false} ConditionReads(t: string, c: Cond, r: Outcome, b: nat, p: nat, q: nat, e: nat) returns (x: Chunk)
    requires Legal(c) && Prints(c.operand) && Layout(t, c, b, p, q, e) && r.Match? && r.pos == b
    ensures var o := ConditionRule(t, r); o.Match? && o.pos == e && o.tokens == r.tokens + x.Tokens()
    ensures FormedChunk(|t|, x) && x.tagBegin == b && x.tagEnd == p && x.op.rule == RuleOf(c.op)
    ensures x.piece.begin == q + 1 && x.piece.end == e && x.piece.kind == KindOf(c.operand)
  {
    hide Blank, TagRule, Comparison, OperandAfter, Legal, OperatorAt, OperatorText, OperandText, FormedPiece;
    LegalTag(t, c, b, p);
    TagReads(t, c, r, b, p, q, e);
    var r2 := Match(p + 1, r.tokens + [Token(PegText, b, p), Token(Tag, b, p)]);
    var piece := OperandReads(t, AfterOperator(r2, c.op), c, e);
    OperatorReads(t, r2, c.op);
    x := Chunk(b, p, Token(RuleOf(c.op), p + 1, q), piece, e);
    ChunkAppended(r.tokens, x);
  }

  lemma {:induction false} LegalTag(t: string, c: Cond, b: nat, p: nat)
    requires Legal(c) && b + |c.tag| == p < |t| && t[b..p] == c.tag && t[p] == ' '
    ensures b < p && TagEnd(t, b) == p
  {
    var tag := t[b..p];
    forall i | b <= i < p ensures t[i] !in RESERVED {
      assert t[i] == tag[i - b];
    }
    assert ' ' in RESERVED;
    TagRun(t, b, p);
  }

  // ---- Conditions in ASCII -------------------------------------------------------------------

  predicate AsciiCond(c: Cond) {
    Ascii(c.tag) && (c.operand.Str? ==> Ascii(c.operand.s))
  }

  predicate AllAscii(cs: seq<Cond>) {
    forall i :: 0 <= i < |cs| ==> AsciiCond(cs[i])
  }

  /** A condition with its texts as the bytes the source holds them in. */
  function Encoded(c: Cond): Cond {
    Cond(Encode(c.tag), c.op, if c.operand.Str? then Str(Encode(c.operand.s)) else c.operand)
  }

  function EncodedAll(cs: seq<Cond>): (r: seq<Cond>)
    ensures |r| == |cs| && forall i :: 0 <= i < |cs| ==> r[i] == Encoded(cs[i])
  {
    seq(|cs|, i requires 0 <= i < |cs| => Encoded(cs[i]))
  }

  lemma {:induction false} EncodedAscii(c: Cond)
    requires AsciiCond(c)
    ensures Encoded(c) == c
  {
    EncodeLength(c.tag);
    if c.operand.Str? { EncodeLength(c.operand.s); }
  }

  lemma {:induction false} CondTextAscii(c: Cond)
    requires Prints(c.operand) && AsciiCond(c)
    ensures Ascii(CondText(c))
  {
    if c.operand.Int? {
      var n := c.operand.n;
      DecimalRoundTrip(if n < 0 then -n else n);
    }
  }

  /** The text of one legal condition is parsed to the tokens of that condition. */
  lemma {:induction false} OneOutcome(c: Cond) returns (x: Chunk, p: nat, q: nat, e: nat)
    requires Legal(c) && Prints(c.operand)
    ensures var t := Quote(CondText(c));
            Layout(t, c, 1, p, q, e) && Parse(t) == Match(|t|, x.Tokens() + [Token(E, 0, |t|)]) && FormedChunk(|t|, x)
    ensures x.tagBegin == 1 && x.tagEnd == p && x.op.rule == RuleOf(c.op)
    ensures x.piece.begin == q + 1 && x.piece.end == e && x.piece.kind == KindOf(c.operand)
  {
    hide Legal, ConditionRule, Rest, Opening, CondText, FormedChunk, Layout;
    var t := Quote(CondText(c));
    var text := CondText(c);
    assert t[1..1 + |text|] == text && t[1 + |text|] == '"';
    p, q, e := LayoutAt(t, c, 1);
    OpeningIsCondition(t);
    x := ConditionReads(t, c, Match(1, []), 1, p, q, e);
    assert [] + x.Tokens() == x.Tokens();
    QuoteEnds(t, Opening(t));
    assert Sees(t, Opening(t), "\"");
  }

  lemma {:induction false} OneLists(lib: Library, c: Cond)
    requires Legal(c) && AsciiCond(c) && Prints(c.operand)
    ensures Parseable(CondText(c))
    ensures Listing(lib, CondText(c)).out == [c] && !Listing(lib, CondText(c)).bad
  {
    hide Legal, Parse, CondText, ReadTokens, Encode, Ascii, AsciiCond, FormedChunk, Layout;
    var t := Quote(CondText(c));
    var x, p, q, e := OneOutcome(c);
    CondTextAscii(c);
    QuoteAscii(CondText(c));
    EncodeLength(t);
    OneReads(lib, t, c, x, p, q, e);
    ReadMark(lib, t, x.Tokens(), Token(E, 0, |t|));
  }

  lemma {:induction false} QuoteAscii(s: string)
    requires Ascii(s)
    ensures Ascii(Quote(s))
  {
  }

  lemma {:induction false} OneReads(lib: Library, t: string, c: Cond, x: Chunk, p: nat, q: nat, e: nat)
    requires Legal(c) && Prints(c.operand) && Layout(t, c, 1, p, q, e) && FormedChunk(|t|, x)
    requires x.tagBegin == 1 && x.tagEnd == p && x.op.rule == RuleOf(c.op)
    requires x.piece.begin == q + 1 && x.piece.end == e && x.piece.kind == KindOf(c.operand)
    ensures var st := ReadTokens(lib, t, x.Tokens()); !st.bad && st.out == [c]
  {
    hide ReadTokens, ReadOperand, OperandText, OperatorText, IsTag, QuoteFree;
    ReadNothing(lib, t);
    assert [] + x.Tokens() == x.Tokens();
    ReadChunk(lib, t, [], x);
    OperandMeans(lib, c.operand);
  }
}
