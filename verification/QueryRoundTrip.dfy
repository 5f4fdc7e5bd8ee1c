/** What the builder prints is what the parser reads back, exactly for ASCII conditions of the grammar. */
module QueryRoundTrip {
  import opened WordSizes
  import opened Options
  import opened Utf8
  import opened QueryGrammar
  import opened QueryReader
  import opened QueryLocality
  import opened QueryShapes
  import opened QueryJoin
  import opened QueryBuilder
  import opened QueryPrinting

  ghost predicate ReadsBack(lib: Library, s: string, cs: seq<Cond>) {
    Parseable(s) && !Listing(lib, s).bad && Listing(lib, s).out == EncodedAll(cs)
  }

  lemma {:induction false} OneReads(lib: Library, c: Cond)
    requires Prints(c.operand) && Legal(c) && AsciiCond(c)
    ensures ReadsBack(lib, CondText(c), [c]) && Ascii(CondText(c)) && EncodedAll([c]) == [c]
  {
    hide Legal, AsciiCond, CondText, Parseable, Listing, Ascii;
    OneLists(lib, c);
    EncodedAscii(c);
    CondTextAscii(c);
    assert EncodedAll([c]) == [c];
  }

  lemma {:induction false} JoinedAscii(a: string, b: string)
    requires Ascii(a) && Ascii(b)
    ensures Ascii(Joined(a, b))
  {
  }

  /** Texts that are read back are read back one after the other. */
  lemma {:induction false} MoreReads(lib: Library, a: string, b: string, cs: seq<Cond>, c: Cond)
    requires ReadsBack(lib, a, cs) && Ascii(a) && ReadsBack(lib, b, [c]) && Ascii(b)
    ensures ReadsBack(lib, Joined(a, b), cs + [c]) && Ascii(Joined(a, b))
  {
    hide Parseable, Listing, Ascii, Joined, Encoded;
    JoinedAscii(a, b);
    JoinLists(lib, a, b);
    assert EncodedAll(cs) + EncodedAll([c]) == EncodedAll(cs + [c]);
  }

  lemma {:induction false} PrintReads(lib: Library, cs: seq<Cond>)
    requires cs != [] && AllPrint(cs) && AllLegal(cs) && AllAscii(cs)
    ensures ReadsBack(lib, Print(cs), cs) && Ascii(Print(cs))
    decreases |cs|
  {
    hide Legal, AsciiCond, CondText, ReadsBack, Ascii, Joined, Parseable, Listing;
    var n := |cs| - 1;
    OneReads(lib, cs[n]);
    if n > 0 {
      PrintReads(lib, cs[..n]);
      MoreReads(lib, Print(cs[..n]), CondText(cs[n]), cs[..n], cs[n]);
      assert cs[..n] + [cs[n]] == cs;
    } else {
      assert [cs[0]] == cs;
    }
  }

  // ---- A text that reads back is ASCII -----------------------------------------------------

  lemma {:induction false} TagEndBefore(t: string, p: nat, q: nat)
    requires p <= q < |t| && t[q] in RESERVED
    ensures TagEnd(t, p) <= q
    decreases q - p
  {
    if p < q && t[p] !in RESERVED {
      TagEndBefore(t, p + 1, q);
    }
  }

  lemma {:induction false} UnquotedBefore(t: string, r: Outcome, q: nat)
    requires r.Match? && r.pos <= q < |t| && t[q] == '\''
    ensures Unquoted(t, r).pos <= q
    decreases q - r.pos
  {
    if r.pos < q && !Sees(t, r, "\"'") {
      UnquotedBefore(t, Advance(r), q);
    }
  }

  /** Only blanks between `b` and `p`. */
  predicate BlankBetween(t: string, b: nat, p: nat) {
    b <= p <= |t| && forall i :: b <= i < p ==> t[i] == ' '
  }

  lemma {:induction false} FirstByte(t: string, p: nat)
    requires p < |t| && Ascii(t[..p])
    ensures p < |Encode(t)| && (Encode(t)[p] == ' ' <==> t[p] == ' ')
  {
    EncodeFrom(t, p);
    assert t[p..][0] == t[p];
    assert Encode(t[p..]) == EncodeChar(t[p]) + Encode(t[p..][1..]);
    assert Encode(t)[p] == EncodeChar(t[p])[0];
  }

  /** A tag read back as printed begins where it was printed, is ASCII and is read whole. */
  lemma {:induction false} TagAligned(t: string, c: Cond, r: nat, b: nat, p: nat, q: nat, e: nat)
    requires Prints(c.operand) && Layout(t, c, b, p, q, e)
    requires BlankBetween(t, b, r) && r < |t| && t[r] != ' ' && Ascii(t[..b])
    requires r < TagEnd(t, r) <= |Encode(t)| && Encode(t)[r..TagEnd(t, r)] == Encode(c.tag)
    ensures r == b < p && TagEnd(t, b) == p && Ascii(c.tag)
  {
    hide OperatorText, OperandText, TagEnd, Encode;
    EncodeLength(c.tag);
    assert ' ' in RESERVED;
    assert Encode(t)[r..TagEnd(t, r)][0] == Encode(t)[r];
    var tag := t[b..p];
    assert forall k :: 0 <= k < |tag| ==> tag[k] == t[b + k];
    if r < p {
      TagEndBefore(t, r, p);
    } else {
      assert Ascii(tag);
      BlankAscii(t, b, r);
      FirstByte(t, r);
    }
  }

  lemma {:induction false} BlankAscii(t: string, b: nat, r: nat)
    requires BlankBetween(t, b, r) && Ascii(t[..b])
    ensures Ascii(t[..r])
  {
    forall i | 0 <= i < r ensures t[..r][i] as int < 128 {
      assert i < b ==> t[..b][i] == t[..r][i];
    }
  }

  /** The state in front of the operand of a condition printed at `b`. */
  ghost function AtOperand(r: Outcome, c: Cond, b: nat, p: nat): Outcome
    requires r.Match?
  {
    AfterOperator(Match(p + 1, r.tokens + [Token(PegText, b, p), Token(Tag, b, p)]), c.op)
  }

  lemma {:induction false} OperandFollows(t: string, c: Cond, r: Outcome, b: nat, p: nat, q: nat, e: nat)
    requires Prints(c.operand) && Layout(t, c, b, p, q, e) && r.Match? && r.pos == b < p && TagEnd(t, b) == p
    ensures AtOperand(r, c, b, p).pos == q + 1
    ensures ConditionRule(t, r) == Mark(Condition, b, OperandAfter(t, AtOperand(r, c, b, p), c.op))
  {
    hide Blank, TagRule, Comparison, OperandAfter, OperatorAt, OperandText, TagEnd;
    TagReads(t, c, r, b, p, q, e);
    OperatorReads(t, Match(p + 1, r.tokens + [Token(PegText, b, p), Token(Tag, b, p)]), c.op);
  }

  /** The tokens of a condition whose operand is `y`. */
  lemma {:induction false} PieceOf(t: string, c: Cond, r: Outcome, b: nat, p: nat, x: Chunk, y: Piece)
    requires r.Match?
    requires var s := AtOperand(r, c, b, p);
             var o := OperandAfter(t, s, c.op);
             o.Match? && o.tokens == s.tokens + y.Tokens() && Mark(Condition, b, o).tokens == r.tokens + x.Tokens()
    ensures x.piece.begin == y.begin && x.piece.end == y.end && x.piece.kind == y.kind && x.op.rule == RuleOf(c.op)
  {
    hide OperandAfter;
    var s := AtOperand(r, c, b, p);
    var o := OperandAfter(t, s, c.op);
    var z := Chunk(b, p, Token(RuleOf(c.op), p + 1, p + 1 + |OperatorText(c.op)|), y, o.pos);
    assert r.tokens + z.Tokens()
        == r.tokens + [Token(PegText, b, p), Token(Tag, b, p)] + [z.op] + y.Tokens() + [Token(Condition, b, o.pos)];
    SameTail(r.tokens, x.Tokens(), z.Tokens());
    ShiftByZero(z.Tokens());
    SamePlaces(z, x, 0);
  }

  /** A string read back as printed is ASCII, free of quotes and read whole. */
  /** Where a quote stands, the operand is a string after = or CONTAINS, and nothing else. */
  lemma {:induction false} ValueOperand(t: string, s: Outcome, op: Operator)
    requires Sees(t, s, "'") && OperandAfter(t, s, op).Match?
    ensures OperandAfter(t, s, op) == ValueRule(t, s) && (op == OpEqual || op == OpContains)
  {
    hide Scalar, ValueRule, DateRule, TimeRule;
    ScalarOrValueByFirst(t, s);
    assert !SeesDigit(t, s) && !Sees(t, s, "tT") && !Sees(t, s, "dD");
    if op != OpEqual && op != OpContains {
      NoScalar(t, s);
    }
  }

  lemma {:induction false} NoScalar(t: string, s: Outcome)
    requires Sees(t, s, "'")
    ensures Scalar(t, s).Fail?
  {
    hide DateRule, TimeRule;
    assert !SeesDigit(t, s) && !Sees(t, s, "tT") && !Sees(t, s, "dD");
    ScalarByFirst(t, s);
  }

  lemma {:induction false} StringAligned(t: string, s: Outcome, c: Cond, e: nat) returns (y: Piece)
    requires c.operand.Str? && s.Match? && s.pos <= e < |t| && t[s.pos..e] == OperandText(c.operand)
    requires OperandAfter(t, s, c.op).Match?
    ensures var o := OperandAfter(t, s, c.op);
            && o.tokens == s.tokens + y.Tokens() && y.kind == Value && y.begin == s.pos && y.end == o.pos
            && (c.op == OpEqual || c.op == OpContains)
            && (o.pos - s.pos - 2 >= |Encode(c.operand.s)| ==> o.pos == e && Ascii(c.operand.s) && QuoteFree(c.operand.s))
  {
    hide OperandAfter, ValueRule, Encode, IsQuoted, QuoteFree, Ascii;
    var x := t[s.pos..e];
    assert t[s.pos] == x[0] == '\'' && t[e - 1] == x[|x| - 1] == '\'';
    assert Sees(t, s, "'");
    ValueOperand(t, s, c.op);
    y := ValueShape(t, s);
    ValueBefore(t, s, e);
    EncodeLength(c.operand.s);
    if ValueRule(t, s).pos == e {
      InnerSlice(t, s.pos, e);
      assert x[1..|x| - 1] == c.operand.s;
      QuotedInside(t[s.pos..e]);
    }
  }

  lemma {:induction false} QuotedInside(x: string)
    requires IsQuoted(x)
    ensures |x| >= 2 && QuoteFree(x[1..|x| - 1])
  {
  }

  lemma {:induction false} ValueBefore(t: string, s: Outcome, e: nat)
    requires ValueRule(t, s).Match? && s.pos + 2 <= e <= |t| && t[e - 1] == '\''
    ensures ValueRule(t, s).pos <= e
  {
    hide Unquoted;
    UnquotedBefore(t, Advance(s), e - 1);
  }

  lemma {:induction false} MinusFails(t: string, s: Outcome, op: Operator)
    requires s.Match? && s.pos < |t| && t[s.pos] == '-'
    ensures OperandAfter(t, s, op).Fail?
  {
    hide Scalar, ValueRule;
    assert !SeesDigit(t, s) && !Sees(t, s, "tT") && !Sees(t, s, "dD") && !Sees(t, s, "'");
  }

  /** An integer operand that is matched is not negative and is read whole. */
  lemma {:induction false} IntAligned(t: string, s: Outcome, c: Cond, e: nat) returns (y: Piece)
    requires c.operand.Int? && s.Match? && s.pos < e < |t| && !NumberGoesOn(t[e]) && t[s.pos..e] == OperandText(c.operand)
    requires OperandAfter(t, s, c.op).Match?
    ensures var o := OperandAfter(t, s, c.op);
            && o.tokens == s.tokens + y.Tokens() && y.kind == Number && y.begin == s.pos && y.end == o.pos == e
            && c.op != OpContains && c.operand.n >= 0
  {
    hide Scalar, ValueRule, NumberRule, Decimal;
    var x := t[s.pos..e];
    assert t[s.pos] == x[0];
    if c.operand.n < 0 {
      MinusFails(t, s, c.op);
    }
    ScalarOrValueByFirst(t, s);
    ScalarByFirst(t, s);
    NumberReads(t, s, c.operand.n, e);
    assert !Sees(t, s, "tT") && !Sees(t, s, "dD") && !Sees(t, s, "'");
    y := NumberShape(t, s);
  }

  /** One condition read back as printed: where it was printed, ASCII, legal and whole. */
  lemma {:induction false} StepAligned(lib: Library, t: string, c: Cond, r: Outcome, b: nat, p: nat, q: nat, e: nat, x: Chunk)
    requires Prints(c.operand) && Layout(t, c, b, p, q, e) && r.Match? && BlankBetween(t, b, r.pos) && Ascii(t[..b])
    requires ConditionRule(t, r).Match? && ConditionRule(t, r).tokens == r.tokens + x.Tokens() && SoundChunk(t, x)
    requires x.tagBegin == r.pos && x.tagEnd == TagEnd(t, r.pos) && FormedChunk(|Encode(t)|, x)
    requires ChunkCond(lib, Encode(t), x) == Some(Encoded(c))
    ensures Legal(c) && AsciiCond(c) && ConditionRule(t, r).pos == e
  {
    hide ConditionRule, OperandAfter, Encode, TagEnd, OperatorText, OperandText, ReadNumber;
    SolidTag(t, x);
    TagAligned(t, c, r.pos, b, p, q, e);
    assert IsTag(c.tag);
    OperandFollows(t, c, r, b, p, q, e);
    SolidParts(t, c, b, p, q, e);
    var s := AtOperand(r, c, b, p);
    if c.operand.Str? {
      var y := StringAligned(t, s, c, e);
      PieceOf(t, c, r, b, p, x, y);
    } else {
      var y := IntAligned(t, s, c, e);
      PieceOf(t, c, r, b, p, x, y);
      NumberInRange(lib, Encode(t)[x.piece.begin..x.piece.end]);
    }
  }

  lemma {:induction false} SolidTag(t: string, x: Chunk)
    requires SoundChunk(t, x)
    ensures x.tagBegin < x.tagEnd <= |t| && t[x.tagBegin] != ' '
  {
    var tag := t[x.tagBegin..x.tagEnd];
    assert tag[0] == t[x.tagBegin] && ' ' in RESERVED;
  }

  lemma {:induction false} NumberInRange(lib: Library, text: string)
    ensures var v := ReadNumber(lib, text); v.Some? && v.value.Int? ==> v.value.n < INT64_LIMIT
  {
  }

  // ---- The whole text ----------------------------------------------------------------------

  /** Where the condition at `j` begins in the quoted text. */
  function Start(cs: seq<Cond>, j: nat): nat
    requires AllPrint(cs) && j < |cs|
  {
    if j == 0 then 1 else |Print(cs[..j])| + 6
  }

  lemma {:induction false} PrintPrefix(cs: seq<Cond>, j: nat)
    requires AllPrint(cs) && 1 <= j <= |cs|
    ensures Print(cs[..j]) <= Print(cs)
    decreases |cs|
  {
    hide CondText;
    if j == |cs| {
      assert cs[..j] == cs;
    } else {
      var n := |cs| - 1;
      assert cs[..n][..j] == cs[..j];
      PrintPrefix(cs[..n], j);
      assert Print(cs[..n]) <= Print(cs);
    }
  }

  /** The condition at `j` stands at its place, followed by the next one or by the closing quote. */
  lemma {:induction false} PrintedAt(cs: seq<Cond>, j: nat)
    requires AllPrint(cs) && j < |cs|
    ensures var t, b, x := Quote(Print(cs)), Start(cs, j), CondText(cs[j]);
            && b + |x| < |t| && t[b..b + |x|] == x
            && (if j + 1 < |cs| then Start(cs, j + 1) == b + |x| + 5 <= |t| && t[b + |x|..b + |x| + 5] == AND_TEXT
                else t[b + |x|] == '"')
  {
    hide CondText, Print, Joined, Quote;
    var x := CondText(cs[j]);
    PrintNext(cs, j);
    PrintPrefix(cs, j + 1);
    JoinedTail(Print(cs[..j]), x);
    InText(Print(cs), Print(cs[..j + 1]), x);
    if j + 1 < |cs| {
      PrintNext(cs, j + 1);
      PrintPrefix(cs, j + 2);
      BeforeText(Print(cs), Print(cs[..j + 1]), CondText(cs[j + 1]));
    } else {
      assert cs[..j + 1] == cs;
      QuotedEnd(Print(cs));
    }
  }

  lemma {:induction false} JoinedTail(a: string, x: string)
    ensures |Joined(a, x)| == |a| + 5 + |x| && Joined(a, x)[|a| + 5..] == x
  {
  }

  lemma {:induction false} QuotedEnd(s: string)
    ensures |Quote(s)| == |s| + 2 && Quote(s)[|s| + 1] == '"'
  {
  }

  lemma {:induction false} InText(s: string, front: string, x: string)
    requires front <= s && |x| <= |front| && front[|front| - |x|..] == x
    ensures var t := Quote(s); var b := 1 + |front| - |x|; b + |x| < |t| && t[b..b + |x|] == x
  {
    var t := Quote(s);
    var b := 1 + |front| - |x|;
    assert t[1..1 + |front|] == front;
    assert t[b..b + |x|] == t[1..1 + |front|][b - 1..];
  }

  lemma {:induction false} BeforeText(s: string, front: string, x: string)
    requires Joined(front, x) <= s
    ensures var t := Quote(s); var e := 1 + |front|; e + 5 <= |t| && t[e..e + 5] == AND_TEXT
  {
    var t := Quote(s);
    assert t[1..1 + |Joined(front, x)|] == Joined(front, x);
    Cut(t, Joined(front, x), 1, |front|, |front| + 5);
    assert Joined(front, x)[|front|..|front| + 5] == AND_TEXT;
  }

  lemma {:induction false} BlankRun(t: string, r: Outcome)
    requires r.Match? && r.pos <= |t|
    ensures BlankBetween(t, r.pos, Blank(t, r).pos)
    decreases |t| - r.pos
  {
    if Sees(t, r, " ") {
      BlankRun(t, Advance(r));
    }
  }

  /** One more condition after an AND: only blanks lie between the two. */
  lemma {:induction false} AfterAnd(t: string, o: Outcome)
    requires o.Match? && o.pos + 5 <= |t| && t[o.pos..o.pos + 5] == AND_TEXT
    ensures var g := Gap(t, AndRule(t, Gap(t, o))); g.Match? && BlankBetween(t, o.pos + 5, g.pos)
  {
    hide Blank, AndRule;
    var x := t[o.pos..o.pos + 5];
    assert forall k :: 0 <= k < 5 ==> x[k] == t[o.pos + k];
    assert x[0] == ' ' && x[1] == 'A' && x[2] == 'N' && x[3] == 'D' && x[4] == ' ';
    OneBlank(t, o);
    AndText(t, Advance(o));
    var a := AndRule(t, Advance(o));
    assert Sees(t, a, " ");
    BlankRun(t, Advance(a));
  }

  /** What is read in the end begins with what has been read so far. */
  lemma {:induction false} RestGrows(lib: Library, t: string, u: string, r: Outcome)
    requires r.Match? && r.pos <= |t|
    ensures var x, y := ReadTokens(lib, u, r.tokens), ReadTokens(lib, u, Rest(t, r).tokens);
            x.out <= y.out && (x.bad ==> y.bad)
    decreases |t| - r.pos
  {
    hide Gap, AndRule, ConditionRule, ReadTokens;
    if More(t, r).Match? {
      var g := Gap(t, AndRule(t, Gap(t, r)));
      AndReads(lib, t, r, u);
      var x := ConditionShape(t, g);
      ReadGrows(lib, u, g.tokens, x.Tokens());
      RestGrows(lib, t, u, More(t, r));
    }
  }

  /** Reads back from the condition at `j` on, which is parsed from `r`. */
  ghost predicate Aligned(lib: Library, t: string, cs: seq<Cond>, j: nat, r: Outcome)
    requires AllPrint(cs) && j < |cs|
  {
    && t == Quote(Print(cs)) && r.Match? && r.pos <= |t|
    && BlankBetween(t, Start(cs, j), r.pos) && Ascii(t[..Start(cs, j)]) && ConditionRule(t, r).Match?
    && var before := ReadTokens(lib, Encode(t), r.tokens);
       var end := ReadTokens(lib, Encode(t), Rest(t, ConditionRule(t, r)).tokens);
       |before.out| == j && !before.bad && !end.bad && end.out == EncodedAll(cs)
  }

  /** The condition at `j` is as it should be, and ends where it was printed to end. */
  lemma {:induction false} AlignedStep(lib: Library, t: string, cs: seq<Cond>, j: nat, r: Outcome)
    requires AllPrint(cs) && j < |cs| && Aligned(lib, t, cs, j, r)
    ensures Legal(cs[j]) && AsciiCond(cs[j]) && ConditionRule(t, r).pos == Start(cs, j) + |CondText(cs[j])|
    ensures var now := ReadTokens(lib, Encode(t), ConditionRule(t, r).tokens); !now.bad && |now.out| == j + 1
  {
    hide ConditionRule, Rest, ReadTokens, Encode, CondText, Print, SoundChunk, FormedChunk, ChunkCond, Encoded, Legal, AsciiCond;
    var c, b := cs[j], Start(cs, j);
    PrintedAt(cs, j);
    AfterCondition(t, b + |CondText(c)|, j + 1 < |cs|);
    var p, q, e := LayoutAt(t, c, b);
    var o := ConditionRule(t, r);
    var x := ConditionShape(t, r);
    EncodeLength(t);
    SoundFormed(t, x, |Encode(t)|);
    ReadChunk(lib, Encode(t), r.tokens, x);
    RestGrows(lib, t, Encode(t), o);
    assert ReadTokens(lib, Encode(t), o.tokens).out[j] == EncodedAll(cs)[j];
    StepAligned(lib, t, c, r, b, p, q, e, x);
  }

  lemma {:induction false} AfterCondition(t: string, e: nat, more: bool)
    requires e < |t| && if more then e + 5 <= |t| && t[e..e + 5] == AND_TEXT else t[e] == '"'
    ensures !NumberGoesOn(t[e]) && t[e] as int < 128 && (more ==> Ascii(t[e..e + 5]))
  {
    if more {
      assert t[e] == t[e..e + 5][0];
    }
  }

  lemma {:induction false} AsciiParts(t: string, b: nat, e: nat, f: nat)
    requires b <= e <= f <= |t| && Ascii(t[..b]) && Ascii(t[b..e]) && Ascii(t[e..f])
    ensures Ascii(t[..f])
  {
    assert t[..f] == t[..b] + t[b..e] + t[e..f];
  }

  lemma {:induction false} AlignedNext(lib: Library, t: string, cs: seq<Cond>, j: nat, r: Outcome) returns (g: Outcome)
    requires AllPrint(cs) && j + 1 < |cs| && Aligned(lib, t, cs, j, r)
    ensures Aligned(lib, t, cs, j + 1, g)
  {
    hide ConditionRule, ReadTokens, Encode, CondText, Print, AndRule, Gap, Legal, AsciiCond, EncodedAll;
    AlignedStep(lib, t, cs, j, r);
    var c, b := cs[j], Start(cs, j);
    var e := b + |CondText(c)|;
    var o := ConditionRule(t, r);
    PrintedAt(cs, j);
    AfterCondition(t, e, true);
    CondTextAscii(c);
    AsciiParts(t, b, e, e + 5);
    AfterAnd(t, o);
    g := Gap(t, AndRule(t, Gap(t, o)));
    AndReads(lib, t, o, Encode(t));
    assert More(t, o).Match?;
  }

  lemma {:induction false} AlignedRun(lib: Library, t: string, cs: seq<Cond>, j: nat, r: Outcome)
    requires AllPrint(cs) && j < |cs| && Aligned(lib, t, cs, j, r)
    ensures forall i :: j <= i < |cs| ==> Legal(cs[i]) && AsciiCond(cs[i])
    decreases |cs| - j
  {
    hide Aligned, Legal, AsciiCond, ConditionRule, ReadTokens, Encode, CondText, Print;
    AlignedStep(lib, t, cs, j, r);
    if j + 1 < |cs| {
      var g := AlignedNext(lib, t, cs, j, r);
      AlignedRun(lib, t, cs, j + 1, g);
    }
  }

  lemma {:induction false} AlignedBegin(lib: Library, cs: seq<Cond>)
    requires cs != [] && AllPrint(cs) && ReadsBack(lib, Print(cs), cs)
    ensures Aligned(lib, Quote(Print(cs)), cs, 0, Match(1, []))
  {
    hide Rest, ConditionRule, Parse, ReadTokens, Encode, Print;
    var s := Print(cs);
    var t := Quote(s);
    EndsAtQuote(s);
    OpeningIsCondition(t);
    ReadNothing(lib, Encode(t));
    ReadMark(lib, Encode(t), Rest(t, Opening(t)).tokens, Token(E, 0, |s| + 2));
  }

  /**
    Printing then parsing is the identity exactly on ASCII conditions the grammar can express. The
    parser counts characters and the reader cuts bytes, so any other character shifts what is read.
   */
  lemma {:induction false} RoundTrip(lib: Library, cs: seq<Cond>)
    requires cs != [] && AllPrint(cs)
    ensures ReadsBack(lib, Print(cs), cs) <==> AllLegal(cs) && AllAscii(cs)
  {
    hide Legal, AsciiCond, Print, Parse, ReadTokens, Aligned, Encode;
    if AllLegal(cs) && AllAscii(cs) {
      PrintReads(lib, cs);
    }
    if ReadsBack(lib, Print(cs), cs) {
      AlignedBegin(lib, cs);
      AlignedRun(lib, Quote(Print(cs)), cs, 0, Match(1, []));
    }
  }

  /** The text of any legal condition outside ASCII parses, yet what it lists is not that condition. */
  lemma {:induction false} NonAsciiMisread(lib: Library, c: Cond)
    requires Legal(c) && Prints(c.operand) && !AsciiCond(c)
    ensures Parseable(CondText(c)) && !ReadsBack(lib, CondText(c), [c])
  {
    hide Legal, AsciiCond, Parse, ReadTokens, CondText, Encode;
    OneParses(c);
    assert Print([c]) == CondText(c);
    RoundTrip(lib, [c]);
  }

  lemma {:induction false} NonAsciiExample(lib: Library)
    ensures var c := Cond("\U{00e9}", OpEqual, Int(1));
            Prints(c.operand) && Parseable(CondText(c)) && !ReadsBack(lib, CondText(c), [c])
  {
    hide Parse, CondText;
    var c := Cond("\U{00e9}", OpEqual, Int(1));
    assert c.tag[0] !in RESERVED && c.tag[0] as int >= 128;
    NonAsciiMisread(lib, c);
  }

  /** Legal conditions parse whatever their characters. */
  lemma {:induction false} OneParses(c: Cond)
    requires Legal(c) && Prints(c.operand)
    ensures Parseable(CondText(c))
  {
    hide Parse, Legal, CondText, FormedChunk, Layout;
    var x, p, q, e := OneOutcome(c);
  }

  /** The builder's string for no conditions is not a query of the grammar. */
  lemma {:induction false} NothingDoesNotParse()
    ensures !Parseable(Print([]))
  {
    hide Parse;
    if Parseable("") {
      StartsSolid("");
    }
  }
}
