/** Joining two queries with AND. */
module QueryJoin {
  import opened Options
  import opened Utf8
  import opened QueryGrammar
  import opened QueryReader
  import opened QueryLocality
  import opened QueryShapes

  function Quote(s: string): string {
    "\"" + s + "\""
  }

  predicate Parseable(s: string) {
    Parse(Quote(s)).Match?
  }

  /** The tokens of a query; none if it is not one. */
  function TokensOf(s: string): seq<Token> {
    var o := Parse(Quote(s));
    if o.Match? then o.tokens else []
  }

  function Listing(lib: Library, s: string): Reading {
    ReadTokens(lib, Encode(Quote(s)), TokensOf(s))
  }

  /** What Matches answers for a set of `tagCount` tags. */
  function Answer(lib: Library, meets: Cond -> Verdict, tagCount: nat, s: string): Verdict {
    if tagCount == 0 then Fails else MatchFrom(lib, meets, Encode(Quote(s)), START, TokensOf(s))
  }

  const AND_TEXT := " AND "

  // ---- Following a parse into the copy -----------------------------------------------------

  lemma {:induction false} RestMoved(c: Placement, r: Outcome)
    requires r.Match? && r.pos <= |c.t| && c.Covers(r, Rest(c.t, r))
    ensures c.Moved(r).pos <= |c.u| && c.Moved(Rest(c.t, r)).pos <= |c.u|
    ensures Rest(c.u, c.Moved(r)) == Rest(c.u, c.Moved(Rest(c.t, r)))
    decreases c.hi - r.pos
  {
    hide More;
    var o := More(c.t, r);
    if o.Match? {
      MoreMoved(c, r);
      RestMoved(c, o);
    }
  }

  /** The last condition of a query ends at the closing quote. */
  lemma {:induction false} EndsAtQuote(s: string)
    requires Parseable(s)
    ensures Opening(Quote(s)).Match?
    ensures Rest(Quote(s), Opening(Quote(s))).pos == |s| + 1
    ensures Parse(Quote(s)).tokens == Rest(Quote(s), Opening(Quote(s))).tokens + [Token(E, 0, |s| + 2)]
  {
    hide Rest, Opening;
  }

  /** Everything between the quotes. */
  ghost function Body(s: string): (o: Outcome)
    requires Parseable(s)
    ensures o.Match? && o.pos == |s| + 1
  {
    EndsAtQuote(s);
    Rest(Quote(s), Opening(Quote(s)))
  }

  lemma {:induction false} OpeningIsCondition(t: string)
    requires t != "" && t[0] == '"'
    ensures Opening(t) == ConditionRule(t, Match(1, []))
  {
    hide ConditionRule;
    assert Sees(t, Match(0, []), "\"");
  }

  /** Where a query's text stands in a longer one. */
  function Placed(s: string, u: string, pre: seq<Token>, d: nat): Placement {
    Placement(Quote(s), u, pre, d, 1, |s| + 1)
  }

  ghost predicate StandsAt(s: string, u: string, d: nat) {
    && |s| + 1 + d < |u| && (forall i :: 0 <= i < |s| ==> u[i + 1 + d] == s[i])
    && !NumberGoesOn(u[|s| + 1 + d])
  }

  lemma {:induction false} PlacedAgrees(s: string, u: string, pre: seq<Token>, d: nat)
    requires StandsAt(s, u, d)
    ensures Placed(s, u, pre, d).Agrees()
  {
    var c := Placed(s, u, pre, d);
    forall i | c.lo <= i < c.hi ensures u[i + d] == c.t[i] {
      assert u[(i - 1) + 1 + d] == s[i - 1];
    }
  }

  /** Parsing the copy from the copy's beginning goes through the end of the copy. */
  lemma {:induction false} RunPlaced(s: string, u: string, pre: seq<Token>, d: nat)
    requires Parseable(s) && StandsAt(s, u, d)
    ensures var c := Placed(s, u, pre, d);
            var first := ConditionRule(u, Match(1 + d, pre));
            first.Match? && Rest(u, first) == Rest(u, c.Moved(Body(s)))
  {
    hide Rest, ConditionRule, Parse;
    var c := Placed(s, u, pre, d);
    var t := Quote(s);
    PlacedAgrees(s, u, pre, d);
    EndsAtQuote(s);
    OpeningIsCondition(t);
    var begin := Match(1, []);
    assert pre + Shift([], d) == pre;
    assert c.Moved(begin) == Match(1 + d, pre);
    ConditionMoved(c, begin);
    RestMoved(c, Opening(t));
  }

  // ---- Reading the copy ----------------------------------------------------------------------

  /** The copy has been read as the original was, after what `pre` stands for. */
  ghost predicate ReadsAlike(lib: Library, c: Placement, r: Outcome) {
    r.Match? &&
    var x := ReadTokens(lib, Encode(c.t), r.tokens);
    var y := ReadTokens(lib, Encode(c.u), c.Moved(r).tokens);
    y.bad == x.bad && y.out == ReadTokens(lib, Encode(c.u), c.pre).out + x.out
  }

  /** The copy agrees with the original byte for byte as well, at the same positions. */
  ghost predicate BytesAgree(c: Placement) {
    var t, u := Encode(c.t), Encode(c.u);
    c.hi <= |t| && c.hi + c.d <= |u| && forall i :: c.lo <= i < c.hi ==> u[i + c.d] == t[i]
  }

  lemma {:induction false} SamePlaces(x: Chunk, y: Chunk, d: nat)
    requires y.Tokens() == Shift(x.Tokens(), d)
    ensures y.tagBegin == x.tagBegin + d && y.tagEnd == x.tagEnd + d && y.op.rule == x.op.rule
    ensures y.piece.begin == x.piece.begin + d && y.piece.end == x.piece.end + d && y.piece.kind == x.piece.kind
  {
    var a, b := x.Tokens(), y.Tokens();
    var n := |x.piece.noise|;
    assert |a| == n + 6 && |b| == |y.piece.noise| + 6;
    assert a[0] == Token(PegText, x.tagBegin, x.tagEnd) && b[0] == Token(PegText, y.tagBegin, y.tagEnd);
    assert a[2] == x.op && b[2] == y.op;
    PieceAt(x);
    PieceAt(y);
  }

  lemma {:induction false} PieceAt(x: Chunk)
    ensures var a := x.Tokens(); var n := |x.piece.noise|;
            && |a| == n + 6 && a[n + 3] == Token(PegText, x.piece.begin, x.piece.end)
            && a[n + 4] == Token(x.piece.kind, x.piece.from, x.piece.end)
  {
  }

  lemma {:induction false} SameChunk(lib: Library, c: Placement, x: Chunk, y: Chunk)
    requires BytesAgree(c) && FormedChunk(|Encode(c.t)|, x) && FormedChunk(|Encode(c.u)|, y)
    requires y.Tokens() == Shift(x.Tokens(), c.d)
    requires c.lo <= x.tagBegin && x.tagEnd <= c.hi && c.lo <= x.piece.begin && x.piece.end <= c.hi
    ensures ChunkCond(lib, Encode(c.u), y) == ChunkCond(lib, Encode(c.t), x)
  {
    hide ReadOperand, Encode;
    SamePlaces(x, y, c.d);
    SameSlice(c, x.tagBegin, x.tagEnd);
    SameSlice(c, x.piece.begin, x.piece.end);
  }

  lemma {:induction false} SameSlice(c: Placement, b: nat, e: nat)
    requires BytesAgree(c) && c.lo <= b <= e <= c.hi
    ensures Encode(c.u)[b + c.d..e + c.d] == Encode(c.t)[b..e]
  {
    hide Encode;
    var t, u := Encode(c.t), Encode(c.u);
    forall i | 0 <= i < e - b ensures u[b + c.d..e + c.d][i] == t[b..e][i] {
      assert u[(b + i) + c.d] == t[b + i];
    }
  }

  /** The tokens of one condition, in the original and in the copy. */
  lemma {:induction false} FormedShape(t: string, r: Outcome) returns (x: Chunk)
    requires ConditionRule(t, r).Match? && r.pos <= |t|
    ensures ConditionRule(t, r).tokens == r.tokens + x.Tokens() && FormedChunk(|Encode(t)|, x)
    ensures r.pos == x.tagBegin && x.tagEnd <= ConditionRule(t, r).pos
    ensures r.pos <= x.piece.begin && x.piece.end <= ConditionRule(t, r).pos
  {
    hide ConditionRule, SoundChunk, FormedChunk, Encode;
    x := ConditionShape(t, r);
    EncodeLength(t);
    SoundFormed(t, x, |Encode(t)|);
  }

  lemma {:induction false} PlacedChunks(c: Placement, r: Outcome) returns (x: Chunk, y: Chunk)
    requires c.Covers(r, ConditionRule(c.t, r))
    ensures var o := ConditionRule(c.t, r);
            && o.tokens == r.tokens + x.Tokens() && c.Moved(o).tokens == c.Moved(r).tokens + y.Tokens()
            && c.lo <= x.tagBegin && x.tagEnd <= c.hi && c.lo <= x.piece.begin && x.piece.end <= c.hi
    ensures FormedChunk(|Encode(c.t)|, x) && FormedChunk(|Encode(c.u)|, y) && y.Tokens() == Shift(x.Tokens(), c.d)
  {
    hide ConditionRule, FormedChunk, Encode;
    var o := ConditionRule(c.t, r);
    ConditionMoved(c, r);
    x := FormedShape(c.t, r);
    y := FormedShape(c.u, c.Moved(r));
    ShiftAppend(r.tokens, x.Tokens(), c.d);
    assert c.Moved(o).tokens == c.Moved(r).tokens + Shift(x.Tokens(), c.d);
    SameTail(c.Moved(r).tokens, y.Tokens(), Shift(x.Tokens(), c.d));
  }

  /** One more condition, in the original and in the copy. */
  lemma {:induction false} ConditionReadsAlike(lib: Library, c: Placement, r: Outcome)
    requires c.Covers(r, ConditionRule(c.t, r)) && BytesAgree(c) && ReadsAlike(lib, c, r)
    ensures ReadsAlike(lib, c, ConditionRule(c.t, r))
  {
    hide ConditionRule, FormedChunk, ChunkCond, ReadTokens, Encode, BytesAgree, Shift;
    var x, y := PlacedChunks(c, r);
    SameChunk(lib, c, x, y);
    ReadChunk(lib, Encode(c.t), r.tokens, x);
    ReadChunk(lib, Encode(c.u), c.Moved(r).tokens, y);
  }

  lemma {:induction false} SameTail<T>(a: seq<T>, b: seq<T>, c: seq<T>)
    requires a + b == a + c
    ensures b == c
  {
    assert b == (a + b)[|a|..] && c == (a + c)[|a|..];
  }

  lemma {:induction false} ReadChunk(lib: Library, t: string, tokens: seq<Token>, x: Chunk)
    requires FormedChunk(|t|, x)
    ensures var st := ReadTokens(lib, t, tokens);
            var end := ReadTokens(lib, t, tokens + x.Tokens());
            if st.bad then end == st else
            match ChunkCond(lib, t, x)
            case None => end.bad && end.out == st.out
            case Some(cond) => !end.bad && end.out == st.out + [cond]
  {
    hide Fold, ChunkCond, FormedChunk;
    var st := ReadTokens(lib, t, tokens);
    FoldAppend(lib, t, START, tokens, x.Tokens());
    if st.bad {
      FoldGrows(lib, t, st, x.Tokens());
    } else {
      FoldChunk(lib, t, st, x);
    }
  }

  lemma {:induction false} ReadMark(lib: Library, t: string, tokens: seq<Token>, token: Token)
    requires token.rule == And || token.rule == E
    ensures ReadTokens(lib, t, tokens + [token]) == ReadTokens(lib, t, tokens)
  {
    hide Fold;
    FoldAppend(lib, t, START, tokens, [token]);
    FoldLast(lib, t, ReadTokens(lib, t, tokens), token);
  }

  lemma {:induction false} GapTokens(t: string, r: Outcome)
    ensures Gap(t, r).Match? ==> Gap(t, r).tokens == r.tokens
  {
    BlankTokens(t, Chr(t, r, " "));
  }

  lemma {:induction false} AndReads(lib: Library, t: string, r: Outcome, u: string)
    requires Gap(t, AndRule(t, Gap(t, r))).Match?
    ensures ReadTokens(lib, u, Gap(t, AndRule(t, Gap(t, r))).tokens) == ReadTokens(lib, u, r.tokens)
  {
    hide Gap, Fold;
    var a := Gap(t, r);
    GapTokens(t, r);
    var b := AndRule(t, a);
    GapTokens(t, b);
    assert b.tokens == a.tokens + [Token(And, a.pos, b.pos)];
    ReadMark(lib, u, a.tokens, Token(And, a.pos, b.pos));
  }

  lemma {:induction false} MoreReadsAlike(lib: Library, c: Placement, r: Outcome)
    requires c.Covers(r, More(c.t, r)) && BytesAgree(c) && ReadsAlike(lib, c, r)
    ensures ReadsAlike(lib, c, More(c.t, r))
  {
    hide Gap, AndRule, ConditionRule, ReadTokens, Encode, BytesAgree;
    var a := Gap(c.t, r);
    var b := AndRule(c.t, a);
    var e := Gap(c.t, b);
    GapMoved(c, r);
    AndMoved(c, a);
    GapMoved(c, b);
    AndReads(lib, c.t, r, Encode(c.t));
    AndReads(lib, c.u, c.Moved(r), Encode(c.u));
    ConditionReadsAlike(lib, c, e);
  }

  lemma {:induction false} RestReadsAlike(lib: Library, c: Placement, r: Outcome)
    requires r.Match? && r.pos <= |c.t| && c.Covers(r, Rest(c.t, r)) && BytesAgree(c) && ReadsAlike(lib, c, r)
    ensures ReadsAlike(lib, c, Rest(c.t, r))
    decreases c.hi - r.pos
  {
    hide More, ReadsAlike, BytesAgree;
    if More(c.t, r).Match? {
      MoreReadsAlike(lib, c, r);
      RestReadsAlike(lib, c, More(c.t, r));
    }
  }

  /** A query read where it stands in a longer text. */
  lemma {:induction false} ReadPlaced(lib: Library, s: string, u: string, pre: seq<Token>, d: nat)
    requires Parseable(s) && StandsAt(s, u, d) && BytesAgree(Placed(s, u, pre, d))
    requires !ReadTokens(lib, Encode(u), pre).bad
    ensures var c := Placed(s, u, pre, d);
            var y := ReadTokens(lib, Encode(u), c.Moved(Body(s)).tokens);
            y.bad == Listing(lib, s).bad && y.out == ReadTokens(lib, Encode(u), pre).out + Listing(lib, s).out
  {
    hide Rest, ConditionRule, Parse, Encode, BytesAgree;
    var c := Placed(s, u, pre, d);
    var t := Quote(s);
    PlacedAgrees(s, u, pre, d);
    EndsAtQuote(s);
    OpeningIsCondition(t);
    var begin := Match(1, []);
    assert pre + Shift([], d) == pre;
    ReadNothing(lib, Encode(t));
    assert ReadTokens(lib, Encode(u), pre).out + [] == ReadTokens(lib, Encode(u), pre).out;
    assert ReadsAlike(lib, c, begin);
    ConditionReadsAlike(lib, c, begin);
    var end := Rest(t, Opening(t));
    RestReadsAlike(lib, c, Opening(t));
    ReadMark(lib, Encode(t), end.tokens, Token(E, 0, |s| + 2));
  }

  // ---- The joined query ----------------------------------------------------------------------

  function Joined(a: string, b: string): string {
    a + AND_TEXT + b
  }

  lemma {:induction false} JoinedText(a: string, b: string)
    ensures var u := Quote(Joined(a, b)); var n := |a|;
            && |u| == n + 7 + |b|
            && u[0] == '"' && u[n + 6 + |b|] == '"'
            && u[n + 1] == ' ' && u[n + 2] == 'A' && u[n + 3] == 'N' && u[n + 4] == 'D' && u[n + 5] == ' '
            && (forall i :: 0 <= i < n ==> u[i + 1 + 0] == a[i])
            && (forall i :: 0 <= i < |b| ==> u[i + 1 + (n + 5)] == b[i])
  {
    var u := Quote(Joined(a, b));
    assert u == "\"" + a + AND_TEXT + b + "\"";
  }

  /** A condition does not begin with a blank. */
  lemma {:induction false} StartsSolid(s: string)
    requires Parseable(s)
    ensures s != "" && s[0] != ' '
  {
    hide Comparison, Rest;
    var t := Quote(s);
    EndsAtQuote(s);
    OpeningIsCondition(t);
    assert t[1] !in RESERVED;
    assert '"' in RESERVED && ' ' in RESERVED;
    assert t[1] == if s == "" then '"' else s[0];
  }

  lemma {:induction false} OneBlank(t: string, r: Outcome)
    requires r.Match? && r.pos + 1 < |t| && t[r.pos] == ' ' && t[r.pos + 1] != ' '
    ensures Gap(t, r) == Advance(r) && Blank(t, r) == Advance(r)
  {
    assert Sees(t, r, " ") && !Sees(t, Advance(r), " ");
    assert Blank(t, Advance(r)) == Advance(r);
  }

  lemma {:induction false} AndText(t: string, r: Outcome)
    requires r.Match? && r.pos + 2 < |t| && t[r.pos] == 'A' && t[r.pos + 1] == 'N' && t[r.pos + 2] == 'D'
    ensures AndRule(t, r) == Match(r.pos + 3, r.tokens + [Token(And, r.pos, r.pos + 3)])
  {
    assert Sees(t, r, "aA");
    assert Sees(t, Match(r.pos + 1, r.tokens), "nN");
    assert Sees(t, Match(r.pos + 2, r.tokens), "dD");
  }

  lemma {:induction false} AndStep(t: string, r: Outcome)
    requires r.Match? && r.pos + 5 < |t| && t[r.pos] == ' ' && t[r.pos + 1] == 'A' && t[r.pos + 2] == 'N'
    requires t[r.pos + 3] == 'D' && t[r.pos + 4] == ' ' && t[r.pos + 5] != ' '
    ensures More(t, r) == ConditionRule(t, Match(r.pos + 5, r.tokens + [Token(And, r.pos + 1, r.pos + 4)]))
  {
    hide ConditionRule, AndRule, Gap;
    OneBlank(t, r);
    AndText(t, Advance(r));
    OneBlank(t, AndRule(t, Advance(r)));
  }

  /** At a closing quote nothing more is matched. */
  lemma {:induction false} QuoteEnds(t: string, r: Outcome)
    requires r.Match? && r.pos < |t| && t[r.pos] == '"'
    ensures Rest(t, r) == r
  {
    hide AndRule, ConditionRule;
    assert !Sees(t, r, " ");
    assert Gap(t, r).Fail?;
    assert More(t, r).Fail?;
  }

  /** The tokens of the first part and of the AND after it. */
  ghost function Before(a: string): seq<Token>
    requires Parseable(a)
  {
    Body(a).tokens + [Token(And, |a| + 2, |a| + 5)]
  }

  /** The second part, parsed and moved to where it stands. */
  ghost function SecondPart(a: string, b: string): (o: Outcome)
    requires Parseable(a) && Parseable(b)
    ensures o.Match? && o.pos == |Quote(Joined(a, b))| - 1
  {
    Placed(b, Quote(Joined(a, b)), Before(a), |a| + 5).Moved(Body(b))
  }

  lemma {:induction false} JoinedStands(a: string, b: string)
    ensures StandsAt(a, Quote(Joined(a, b)), 0) && StandsAt(b, Quote(Joined(a, b)), |a| + 5)
  {
    hide Quote, Joined;
    JoinedText(a, b);
  }

  lemma {:induction false} FirstPart(a: string, u: string)
    requires Parseable(a) && StandsAt(a, u, 0) && u[0] == '"'
    ensures Rest(u, Opening(u)) == Rest(u, Body(a)) && Placed(a, u, [], 0).Moved(Body(a)) == Body(a)
  {
    hide Rest, ConditionRule, Parse, Body;
    RunPlaced(a, u, [], 0);
    OpeningIsCondition(u);
    var end := Body(a);
    ShiftByZero(end.tokens);
    assert [] + Shift(end.tokens, 0) == end.tokens;
  }

  lemma {:induction false} SecondPartFollows(a: string, b: string)
    requires Parseable(a) && Parseable(b)
    ensures |a| + 1 <= |Quote(Joined(a, b))| && Rest(Quote(Joined(a, b)), Body(a)) == SecondPart(a, b)
  {
    hide ConditionRule, Parse, Opening, Body;
    var u := Quote(Joined(a, b));
    var end := Body(a);
    JoinedText(a, b);
    JoinedStands(a, b);
    StartsSolid(b);
    assert u[0 + 1 + (|a| + 5)] == b[0];
    AndStep(u, end);
    RunPlaced(b, u, Before(a), |a| + 5);
    QuoteEnds(u, SecondPart(a, b));
  }

  /** Two queries joined by AND parse, to the tokens of the first followed by those of the second. */
  lemma {:induction false} JoinParses(a: string, b: string)
    requires Parseable(a) && Parseable(b)
    ensures Parse(Quote(Joined(a, b))) == Mark(E, 0, Advance(SecondPart(a, b)))
  {
    hide Rest, Opening, SecondPart, Body, Mark;
    var u := Quote(Joined(a, b));
    JoinedText(a, b);
    JoinedStands(a, b);
    FirstPart(a, u);
    SecondPartFollows(a, b);
    assert Sees(u, SecondPart(a, b), "\"");
  }

  lemma {:induction false} FirstBytes(a: string, b: string)
    ensures BytesAgree(Placed(a, Quote(Joined(a, b)), [], 0))
  {
    hide Encode;
    var t, u := Quote(a), Quote(Joined(a, b));
    var front := "\"" + a;
    assert t == front + "\"" && u == front + (AND_TEXT + b + "\"");
    EncodeAppend(front, "\"");
    EncodeAppend(front, AND_TEXT + b + "\"");
    EncodeLength(front);
  }

  /** Behind an ASCII text the bytes of the second query stand where its characters do. */
  lemma {:induction false} SecondBytes(a: string, b: string, pre: seq<Token>)
    requires Ascii(a)
    ensures BytesAgree(Placed(b, Quote(Joined(a, b)), pre, |a| + 5))
  {
    hide Encode;
    var t, u := Quote(b), Quote(Joined(a, b));
    var front, tail := "\"" + a + AND_TEXT, b + "\"";
    assert t == "\"" + tail && u == front + tail;
    EncodeAppend("\"", tail);
    EncodeAppend(front, tail);
    EncodeLength("\"");
    EncodeLength(front);
    assert Ascii(front) && Ascii("\"");
    EncodeLength(tail);
    forall i | 1 <= i < |b| + 1 ensures Encode(u)[i + (|a| + 5)] == Encode(t)[i] {
      assert Encode(u)[i + (|a| + 5)] == Encode(tail)[i - 1];
    }
  }

  /** Up to the AND the joined query is read as its first part. */
  lemma {:induction false} FirstReads(lib: Library, a: string, b: string)
    requires Parseable(a) && Parseable(b)
    ensures var r := ReadTokens(lib, Encode(Quote(Joined(a, b))), Before(a));
            r.bad == Listing(lib, a).bad && r.out == Listing(lib, a).out
  {
    hide Rest, Opening, Parse, Fold, ReadTokens, Body, Encode, BytesAgree, Listing;
    var u := Quote(Joined(a, b));
    JoinedText(a, b);
    JoinedStands(a, b);
    FirstPart(a, u);
    FirstBytes(a, b);
    ReadNothing(lib, Encode(u));
    ReadPlaced(lib, a, u, [], 0);
    ReadMark(lib, Encode(u), Body(a).tokens, Token(And, |a| + 2, |a| + 5));
  }

  lemma {:induction false} SecondGrows(a: string, b: string)
    requires Parseable(a) && Parseable(b)
    ensures Before(a) <= SecondPart(a, b).tokens
  {
    hide Parse, Body, Before, Encode;
  }

  lemma {:induction false} JoinedReads(lib: Library, a: string, b: string)
    requires Parseable(a) && Parseable(b)
    ensures Parseable(Joined(a, b))
    ensures Listing(lib, Joined(a, b)) == ReadTokens(lib, Encode(Quote(Joined(a, b))), SecondPart(a, b).tokens)
  {
    hide Parse, ReadTokens, SecondPart, Encode;
    var u := Quote(Joined(a, b));
    JoinParses(a, b);
    ReadMark(lib, Encode(u), SecondPart(a, b).tokens, Token(E, 0, |u|));
  }

  /**
    The joined query lists the conditions of the first and then those of the second. Behind a first
    query that is not ASCII the tokens of the second no longer point at its bytes.
   */
  lemma {:induction false} JoinLists(lib: Library, a: string, b: string)
    requires Parseable(a) && Parseable(b)
    ensures Parseable(Joined(a, b))
    ensures var j, x, y := Listing(lib, Joined(a, b)), Listing(lib, a), Listing(lib, b);
            if x.bad then j.bad && j.out == x.out
            else x.out <= j.out && (Ascii(a) ==> j.bad == y.bad && j.out == x.out + y.out)
  {
    hide Parse, ReadTokens, Encode, BytesAgree, SecondPart, Before, Body, Listing, Ascii, Joined, Quote, Parseable;
    var bytes := Encode(Quote(Joined(a, b)));
    FirstReads(lib, a, b);
    JoinedReads(lib, a, b);
    SecondGrows(a, b);
    var rest := SecondPart(a, b).tokens[|Before(a)|..];
    assert SecondPart(a, b).tokens == Before(a) + rest;
    ReadGrows(lib, bytes, Before(a), rest);
    if !Listing(lib, a).bad && Ascii(a) {
      SecondReads(lib, a, b);
    }
  }

  lemma {:induction false} SecondReads(lib: Library, a: string, b: string)
    requires Parseable(a) && Parseable(b) && Ascii(a) && !Listing(lib, a).bad
    ensures var r := ReadTokens(lib, Encode(Quote(Joined(a, b))), SecondPart(a, b).tokens);
            r.bad == Listing(lib, b).bad && r.out == Listing(lib, a).out + Listing(lib, b).out
  {
    hide Parse, ReadTokens, Encode, BytesAgree, Before, Body, Listing;
    FirstReads(lib, a, b);
    JoinedText(a, b);
    JoinedStands(a, b);
    SecondBytes(a, b, Before(a));
    ReadPlaced(lib, b, Quote(Joined(a, b)), Before(a), |a| + 5);
  }

  lemma {:induction false} ReadNothing(lib: Library, t: string)
    ensures ReadTokens(lib, t, []) == START
  {
  }

  lemma {:induction false} ReadGrows(lib: Library, t: string, a: seq<Token>, b: seq<Token>)
    ensures ReadTokens(lib, t, a).out <= ReadTokens(lib, t, a + b).out
    ensures ReadTokens(lib, t, a).bad ==> ReadTokens(lib, t, a + b) == ReadTokens(lib, t, a)
  {
    FoldAppend(lib, t, START, a, b);
    FoldGrows(lib, t, ReadTokens(lib, t, a), b);
  }

  /** The joined query answers for the first part and, if that holds and is ASCII, for the second. */
  lemma {:induction false} JoinMatches(lib: Library, meets: Cond -> Verdict, tagCount: nat, a: string, b: string)
    requires Parseable(a) && Parseable(b)
    ensures Parseable(Joined(a, b))
    ensures var x := Answer(lib, meets, tagCount, a);
            x != Holds || Ascii(a) ==>
              Answer(lib, meets, tagCount, Joined(a, b)) == if x != Holds then x else Answer(lib, meets, tagCount, b)
  {
    hide Parse, Fold, MatchFrom, All, Encode, Ascii;
    JoinLists(lib, a, b);
    AnswerIsAll(lib, meets, a);
    AnswerIsAll(lib, meets, b);
    AnswerIsAll(lib, meets, Joined(a, b));
    var x, j := Listing(lib, a), Listing(lib, Joined(a, b));
    assert j.out == x.out + j.out[|x.out|..];
    AllAppend(meets, x.out, j.out[|x.out|..]);
    if !x.bad && Ascii(a) {
      assert j.out[|x.out|..] == Listing(lib, b).out;
    }
  }

  lemma {:induction false} AnswerIsAll(lib: Library, meets: Cond -> Verdict, s: string)
    requires Parseable(s)
    ensures var x := Listing(lib, s);
            var v := All(meets, x.out);
            MatchFrom(lib, meets, Encode(Quote(s)), START, Parse(Quote(s)).tokens)
            == if v != Holds then v else if x.bad then Panics else Holds
  {
    hide Parse, Fold, MatchFrom, All;
    MatchIsAll(lib, meets, Encode(Quote(s)), START, Parse(Quote(s)).tokens);
    assert Listing(lib, s).out[0..] == Listing(lib, s).out;
  }

  /** When nothing panics, a query matches exactly when there are tags and every condition holds. */
  lemma {:induction false} MatchesIsConditions(lib: Library, meets: Cond -> Verdict, tagCount: nat, s: string)
    requires Parseable(s) && !Listing(lib, s).bad
    requires forall i :: 0 <= i < |Listing(lib, s).out| ==> meets(Listing(lib, s).out[i]) != Panics
    ensures Answer(lib, meets, tagCount, s) != Panics
    ensures Answer(lib, meets, tagCount, s) == Holds <==>
            tagCount > 0 && forall i :: 0 <= i < |Listing(lib, s).out| ==> meets(Listing(lib, s).out[i]) == Holds
  {
    hide Parse, ReadTokens, MatchFrom, All;
    AnswerIsAll(lib, meets, s);
    AllMeaning(meets, Listing(lib, s).out);
  }
}
