/** The generated parser: one position and one token stack, both put back when an alternative fails. */
module QueryParsers {
  import opened QueryGrammar

  class QueryParser {
    const buffer: string
    var position: nat
    var tokenIndex: nat
    var tree: seq<Token>

    ghost predicate Valid()
      reads this
    {
      position <= |buffer| && tokenIndex <= |tree| && tree != []
    }

    function Tokens(): seq<Token>
      requires Valid()
      reads this
    {
      tree[..tokenIndex]
    }

    /** What is below `saved` on the stack has not been touched, and after a success the state is `r`. */
    ghost predicate Stands(ok: bool, r: Outcome, saved: seq<Token>)
      reads this
    {
      && Valid() && (ok <==> r.Match?)
      && |saved| <= tokenIndex && tree[..|saved|] == saved
      && (ok ==> position == r.pos && Tokens() == r.tokens)
    }

    constructor (text: string)
      ensures Valid() && buffer == text && position == 0 && Tokens() == []
    {
      buffer := text;
      position, tokenIndex := 0, 0;
      tree := seq(32767, _ => Token(Unknown, 0, 0));
    }

    // ---- Steps ---------------------------------------------------------------------------

    method Add(rule: Rule, begin: nat)
      requires Valid()
      modifies this`tree, this`tokenIndex
      ensures Valid() && Tokens() == old(Tokens()) + [Token(rule, begin, position)]
    {
      if tokenIndex >= |tree| {
        tree := tree + seq(|tree|, _ => Token(Unknown, 0, 0));
      }
      assert tree[..tokenIndex] == old(Tokens());
      tree := tree[tokenIndex := Token(rule, begin, position)];
      tokenIndex := tokenIndex + 1;
    }

    method Put(go: bool, rule: Rule, begin: nat, ghost r: Outcome, ghost saved: seq<Token>) returns (ghost o: Outcome)
      requires Stands(go, r, saved)
      modifies this`tree, this`tokenIndex
      ensures o == Mark(rule, begin, r) && Stands(go, o, saved)
    {
      o := Mark(rule, begin, r);
      if go {
        ghost var before := Tokens();
        Add(rule, begin);
        assert Tokens()[..|before|] == before && before[..|saved|] == saved;
        assert tree[..|saved|] == Tokens()[..|saved|];
      }
    }

    method Char(go: bool, chars: string, ghost r: Outcome, ghost saved: seq<Token>) returns (ok: bool, ghost o: Outcome)
      requires Stands(go, r, saved)
      modifies this`position
      ensures o == Chr(buffer, r, chars) && Stands(ok, o, saved) && (!ok ==> position == old(position))
    {
      o := Chr(buffer, r, chars);
      ok := go && position < |buffer| && buffer[position] in chars;
      if ok {
        position := position + 1;
      }
    }

    method Blanks(go: bool, ghost r: Outcome, ghost saved: seq<Token>) returns (ghost o: Outcome)
      requires Stands(go, r, saved)
      modifies this`position
      ensures o == Blank(buffer, r) && Stands(go, o, saved)
    {
      o := r;
      while go && position < |buffer| && buffer[position] == ' '
        invariant Stands(go, o, saved) && Blank(buffer, o) == Blank(buffer, r)
        decreases |buffer| - position
      {
        position, o := position + 1, Advance(o);
      }
    }

    method Gaps(go: bool, ghost r: Outcome, ghost saved: seq<Token>) returns (ok: bool, ghost o: Outcome)
      requires Stands(go, r, saved)
      modifies this`position
      ensures o == Gap(buffer, r) && Stands(ok, o, saved)
    {
      ok, o := Char(go, " ", r, saved);
      o := Blanks(ok, o, saved);
    }

    /** Goes back after a failure. */
    method Restore(ok: bool, p: nat, k: nat, ghost o: Outcome, ghost now: seq<Token>, ghost saved: seq<Token>)
      requires Stands(ok, o, now) && k == |now| && p <= |buffer| && saved <= now
      modifies this`position, this`tokenIndex
      ensures Stands(ok, o, saved) && (!ok ==> position == p && Tokens() == now)
    {
      assert tree[..|saved|] == now[..|saved|];
      if !ok {
        position, tokenIndex := p, k;
      }
    }

    // ---- Operands --------------------------------------------------------------------------

    method DigitRule(go: bool, ghost r: Outcome, ghost saved: seq<Token>) returns (ok: bool, ghost o: Outcome)
      requires Stands(go, r, saved)
      modifies this
      ensures o == Dig(buffer, r) && Stands(ok, o, saved)
      ensures !ok ==> position == old(position) && Tokens() == old(Tokens())
    {
      ok, o := go && position < |buffer| && '0' <= buffer[position] <= '9', Dig(buffer, r);
      if ok {
        var begin := position;
        position := position + 1;
        ghost var _ := Put(true, Digit, begin, Advance(r), saved);
      }
    }

    method DigitStar(go: bool, ghost r: Outcome, ghost saved: seq<Token>) returns (ghost o: Outcome)
      requires Stands(go, r, saved)
      modifies this
      ensures o == Digits(buffer, r) && Stands(go, o, saved)
    {
      o := r;
      var more := go;
      while more
        invariant Stands(go, o, saved) && Digits(buffer, o) == Digits(buffer, r)
        invariant more ==> go
        invariant !more ==> !SeesDigit(buffer, o)
        decreases |buffer| - position, more
      {
        ghost var next;
        more, next := DigitRule(true, o, saved);
        if more {
          o := next;
        }
      }
    }

    method FractionOpt(go: bool, ghost r: Outcome, ghost saved: seq<Token>) returns (ghost o: Outcome)
      requires Stands(go, r, saved)
      modifies this
      ensures o == Fraction(buffer, r) && Stands(go, o, saved)
    {
      ghost var s;
      var dot;
      dot, s := Char(go, ".", r, saved);
      if dot {
        o := DigitStar(true, s, saved);
      } else {
        o := r;
      }
    }

    method NumeralText(go: bool, ghost r: Outcome, ghost saved: seq<Token>) returns (ok: bool, ghost o: Outcome)
      requires Stands(go, r, saved)
      modifies this
      ensures o == Numeral(buffer, r) && Stands(ok, o, saved)
    {
      ok, o := Char(go, "0", r, saved);
      if !ok {
        ok, o := Char(go, "123456789", r, saved);
        o := DigitStar(ok, o, saved);
        o := FractionOpt(ok, o, saved);
      }
    }

    method NumberAt(go: bool, ghost r: Outcome, ghost saved: seq<Token>) returns (ok: bool, ghost o: Outcome)
      requires Stands(go, r, saved)
      modifies this
      ensures o == NumberRule(buffer, r) && Stands(ok, o, saved)
      ensures !ok ==> position == old(position) && Tokens() == old(Tokens())
    {
      hide Mark, Numeral;
      ghost var now := Tokens();
      var p, k := position, tokenIndex;
      ok, o := NumeralText(go, r, now);
      o := Put(ok, PegText, p, o, now);
      o := Put(ok, Number, p, o, now);
      Restore(ok, p, k, o, now, saved);
    }

    method UnquotedText(go: bool, ghost r: Outcome, ghost saved: seq<Token>) returns (ghost o: Outcome)
      requires Stands(go, r, saved)
      modifies this`position
      ensures o == Unquoted(buffer, r) && Stands(go, o, saved)
    {
      o := r;
      while go && position < |buffer| && buffer[position] !in "\"'"
        invariant Stands(go, o, saved) && Unquoted(buffer, o) == Unquoted(buffer, r)
        decreases |buffer| - position
      {
        position, o := position + 1, Advance(o);
      }
    }

    method ValueAt(go: bool, ghost r: Outcome, ghost saved: seq<Token>) returns (ok: bool, ghost o: Outcome)
      requires Stands(go, r, saved)
      modifies this
      ensures o == ValueRule(buffer, r) && Stands(ok, o, saved)
      ensures !ok ==> position == old(position) && Tokens() == old(Tokens())
    {
      hide Mark, Chr, Unquoted;
      ghost var now := Tokens();
      var p, k := position, tokenIndex;
      ok, o := Char(go, "'", r, now);
      o := UnquotedText(ok, o, now);
      ok, o := Char(ok, "'", o, now);
      o := Put(ok, PegText, p, o, now);
      o := Put(ok, Value, p, o, now);
      Restore(ok, p, k, o, now, saved);
    }

    method YearAt(go: bool, ghost r: Outcome, ghost saved: seq<Token>) returns (ok: bool, ghost o: Outcome)
      requires Stands(go, r, saved)
      modifies this
      ensures o == YearRule(buffer, r) && Stands(ok, o, saved)
      ensures !ok ==> position == old(position) && Tokens() == old(Tokens())
    {
      hide Mark, Chr, Dig;
      ghost var now := Tokens();
      var p, k := position, tokenIndex;
      ok, o := Char(go, "12", r, now);
      ok, o := DigitRule(ok, o, now);
      ok, o := DigitRule(ok, o, now);
      ok, o := DigitRule(ok, o, now);
      o := Put(ok, Year, p, o, now);
      Restore(ok, p, k, o, now, saved);
    }

    method MonthAt(go: bool, ghost r: Outcome, ghost saved: seq<Token>) returns (ok: bool, ghost o: Outcome)
      requires Stands(go, r, saved)
      modifies this
      ensures o == MonthRule(buffer, r) && Stands(ok, o, saved)
      ensures !ok ==> position == old(position) && Tokens() == old(Tokens())
    {
      hide Mark, Chr, Dig;
      ghost var now := Tokens();
      var p, k := position, tokenIndex;
      ok, o := Char(go, "01", r, now);
      ok, o := DigitRule(ok, o, now);
      o := Put(ok, Month, p, o, now);
      Restore(ok, p, k, o, now, saved);
    }

    method DayAt(go: bool, ghost r: Outcome, ghost saved: seq<Token>) returns (ok: bool, ghost o: Outcome)
      requires Stands(go, r, saved)
      modifies this
      ensures o == DayRule(buffer, r) && Stands(ok, o, saved)
      ensures !ok ==> position == old(position) && Tokens() == old(Tokens())
    {
      hide Mark, Chr, Dig;
      ghost var now := Tokens();
      var p, k := position, tokenIndex;
      ok, o := Char(go, "0123", r, now);
      ok, o := DigitRule(ok, o, now);
      o := Put(ok, Day, p, o, now);
      Restore(ok, p, k, o, now, saved);
    }

    method CalendarAt(go: bool, ghost r: Outcome, ghost saved: seq<Token>) returns (ok: bool, ghost o: Outcome)
      requires Stands(go, r, saved)
      modifies this
      ensures o == Calendar(buffer, r) && Stands(ok, o, saved)
    {
      hide YearRule, MonthRule, DayRule, Chr;
      ok, o := YearAt(go, r, saved);
      ok, o := Char(ok, "-", o, saved);
      ok, o := MonthAt(ok, o, saved);
      ok, o := Char(ok, "-", o, saved);
      ok, o := DayAt(ok, o, saved);
    }

    method TwoDigitsAt(go: bool, ghost r: Outcome, ghost saved: seq<Token>) returns (ok: bool, ghost o: Outcome)
      requires Stands(go, r, saved)
      modifies this
      ensures o == TwoDigits(buffer, r) && Stands(ok, o, saved)
    {
      hide Dig;
      ok, o := DigitRule(go, r, saved);
      ok, o := DigitRule(ok, o, saved);
    }

    method ClockAt(go: bool, ghost r: Outcome, ghost saved: seq<Token>) returns (ok: bool, ghost o: Outcome)
      requires Stands(go, r, saved)
      modifies this
      ensures o == Clock(buffer, r) && Stands(ok, o, saved)
    {
      hide TwoDigits, Chr;
      ok, o := Char(go, "T", r, saved);
      ok, o := TwoDigitsAt(ok, o, saved);
      ok, o := Char(ok, ":", o, saved);
      ok, o := TwoDigitsAt(ok, o, saved);
      ok, o := Char(ok, ":", o, saved);
      ok, o := TwoDigitsAt(ok, o, saved);
    }

    method OffsetAt(go: bool, ghost r: Outcome, ghost saved: seq<Token>) returns (ok: bool, ghost o: Outcome)
      requires Stands(go, r, saved)
      modifies this
      ensures o == Offset(buffer, r) && Stands(ok, o, saved)
    {
      hide TwoDigits, Chr;
      ok, o := Char(go, "-+", r, saved);
      ok, o := TwoDigitsAt(ok, o, saved);
      ok, o := Char(ok, ":", o, saved);
      ok, o := TwoDigitsAt(ok, o, saved);
    }

    method ZoneAt(go: bool, ghost r: Outcome, ghost saved: seq<Token>) returns (ok: bool, ghost o: Outcome)
      requires Stands(go, r, saved)
      modifies this
      ensures o == Zone(buffer, r) && Stands(ok, o, saved)
    {
      hide Offset, Chr;
      ghost var now := Tokens();
      var p, k := position, tokenIndex;
      ok, o := OffsetAt(go, r, now);
      Restore(ok, p, k, o, now, saved);
      if !ok {
        ok, o := Char(go, "Z", r, saved);
      }
    }

    method TimeAt(go: bool, ghost r: Outcome, ghost saved: seq<Token>) returns (ok: bool, ghost o: Outcome)
      requires Stands(go, r, saved)
      modifies this
      ensures o == TimeRule(buffer, r) && Stands(ok, o, saved)
      ensures !ok ==> position == old(position) && Tokens() == old(Tokens())
    {
      hide Mark, Chr, Calendar, Clock, Zone;
      ghost var now := Tokens();
      var p, k := position, tokenIndex;
      ok, o := Char(go, "tT", r, now);
      ok, o := Char(ok, "iI", o, now);
      ok, o := Char(ok, "mM", o, now);
      ok, o := Char(ok, "eE", o, now);
      ok, o := Char(ok, " ", o, now);
      var begin := position;
      ok, o := CalendarAt(ok, o, now);
      ok, o := ClockAt(ok, o, now);
      ok, o := ZoneAt(ok, o, now);
      o := Put(ok, PegText, begin, o, now);
      o := Put(ok, Time, p, o, now);
      Restore(ok, p, k, o, now, saved);
    }

    method DateAt(go: bool, ghost r: Outcome, ghost saved: seq<Token>) returns (ok: bool, ghost o: Outcome)
      requires Stands(go, r, saved)
      modifies this
      ensures o == DateRule(buffer, r) && Stands(ok, o, saved)
      ensures !ok ==> position == old(position) && Tokens() == old(Tokens())
    {
      hide Mark, Chr, Calendar;
      ghost var now := Tokens();
      var p, k := position, tokenIndex;
      ok, o := Char(go, "dD", r, now);
      ok, o := Char(ok, "aA", o, now);
      ok, o := Char(ok, "tT", o, now);
      ok, o := Char(ok, "eE", o, now);
      ok, o := Char(ok, " ", o, now);
      var begin := position;
      ok, o := CalendarAt(ok, o, now);
      o := Put(ok, PegText, begin, o, now);
      o := Put(ok, Date, p, o, now);
      Restore(ok, p, k, o, now, saved);
    }

    /** The choice made by the next character alone. */
    method ScalarAt(go: bool, ghost r: Outcome, ghost saved: seq<Token>) returns (ok: bool, ghost o: Outcome)
      requires Stands(go, r, saved)
      modifies this
      ensures o == Scalar(buffer, r) && Stands(ok, o, saved)
    {
      hide NumberRule, TimeRule, DateRule, Scalar;
      ScalarByFirst(buffer, r);
      if go && position < |buffer| && buffer[position] in "dD" {
        ok, o := DateAt(go, r, saved);
      } else if go && position < |buffer| && buffer[position] in "tT" {
        ok, o := TimeAt(go, r, saved);
      } else {
        ok, o := NumberAt(go, r, saved);
      }
    }

    // ---- Conditions ------------------------------------------------------------------------

    method TagAt(go: bool, ghost r: Outcome, ghost saved: seq<Token>) returns (ok: bool, ghost o: Outcome)
      requires Stands(go, r, saved)
      modifies this
      ensures o == TagRule(buffer, r) && Stands(ok, o, saved)
    {
      var p := position;
      o := r;
      while go && position < |buffer| && buffer[position] !in RESERVED
        invariant Stands(go, o, saved) && p <= position && (go ==> o.tokens == r.tokens)
        invariant go ==> TagEnd(buffer, position) == TagEnd(buffer, p)
        decreases |buffer| - position
      {
        position, o := position + 1, Advance(o);
      }
      ok := go && position > p;
      if !ok {
        o := Fail;
      }
      hide Mark;
      o := Put(ok, PegText, p, o, saved);
      o := Put(ok, Tag, p, o, saved);
    }

    method LeAt(go: bool, ghost r: Outcome, ghost saved: seq<Token>) returns (ok: bool, ghost o: Outcome)
      requires Stands(go, r, saved)
      modifies this
      ensures o == LeAlt(buffer, r) && Stands(ok, o, saved)
      ensures !ok ==> position == old(position) && Tokens() == old(Tokens())
    {
      hide Mark, Chr, Blank, Scalar;
      ghost var now := Tokens();
      var p, k := position, tokenIndex;
      ok, o := Char(go, "<", r, now);
      ok, o := Char(ok, "=", o, now);
      o := Put(ok, Le, p, o, now);
      o := Blanks(ok, o, now);
      ok, o := ScalarAt(ok, o, now);
      Restore(ok, p, k, o, now, saved);
    }

    method GeAt(go: bool, ghost r: Outcome, ghost saved: seq<Token>) returns (ok: bool, ghost o: Outcome)
      requires Stands(go, r, saved)
      modifies this
      ensures o == GeAlt(buffer, r) && Stands(ok, o, saved)
      ensures !ok ==> position == old(position) && Tokens() == old(Tokens())
    {
      hide Mark, Chr, Blank, Scalar;
      ghost var now := Tokens();
      var p, k := position, tokenIndex;
      ok, o := Char(go, ">", r, now);
      ok, o := Char(ok, "=", o, now);
      o := Put(ok, Ge, p, o, now);
      o := Blanks(ok, o, now);
      ok, o := ScalarAt(ok, o, now);
      Restore(ok, p, k, o, now, saved);
    }

    method LAt(go: bool, ghost r: Outcome, ghost saved: seq<Token>) returns (ok: bool, ghost o: Outcome)
      requires Stands(go, r, saved)
      modifies this
      ensures o == LAlt(buffer, r) && Stands(ok, o, saved)
    {
      hide Mark, Chr, Blank, Scalar;
      var p := position;
      ok, o := Char(go, "<", r, saved);
      o := Put(ok, L, p, o, saved);
      o := Blanks(ok, o, saved);
      ok, o := ScalarAt(ok, o, saved);
    }

    method GAt(go: bool, ghost r: Outcome, ghost saved: seq<Token>) returns (ok: bool, ghost o: Outcome)
      requires Stands(go, r, saved)
      modifies this
      ensures o == GAlt(buffer, r) && Stands(ok, o, saved)
    {
      hide Mark, Chr, Blank, Scalar;
      var p := position;
      ok, o := Char(go, ">", r, saved);
      o := Put(ok, G, p, o, saved);
      o := Blanks(ok, o, saved);
      ok, o := ScalarAt(ok, o, saved);
    }

    method EqualAt(go: bool, ghost r: Outcome, ghost saved: seq<Token>) returns (ok: bool, ghost o: Outcome)
      requires Stands(go, r, saved)
      modifies this
      ensures o == EqualAlt(buffer, r) && Stands(ok, o, saved)
    {
      hide Mark, Chr, Blank, Scalar, ValueRule;
      var p := position;
      ok, o := Char(go, "=", r, saved);
      o := Put(ok, Equal, p, o, saved);
      o := Blanks(ok, o, saved);
      ScalarOrValueByFirst(buffer, o);
      if ok && position < |buffer| && buffer[position] == '\'' {
        ok, o := ValueAt(ok, o, saved);
      } else {
        ok, o := ScalarAt(ok, o, saved);
      }
    }

    method ContainsAt(go: bool, ghost r: Outcome, ghost saved: seq<Token>) returns (ok: bool, ghost o: Outcome)
      requires Stands(go, r, saved)
      modifies this
      ensures o == ContainsAlt(buffer, r) && Stands(ok, o, saved)
    {
      hide Mark, Chr, Blank, ValueRule;
      var p := position;
      ok, o := Char(go, "cC", r, saved);
      ok, o := Char(ok, "oO", o, saved);
      ok, o := Char(ok, "nN", o, saved);
      ok, o := Char(ok, "tT", o, saved);
      ok, o := Char(ok, "aA", o, saved);
      ok, o := Char(ok, "iI", o, saved);
      ok, o := Char(ok, "nN", o, saved);
      ok, o := Char(ok, "sS", o, saved);
      o := Put(ok, Contains, p, o, saved);
      o := Blanks(ok, o, saved);
      ok, o := ValueAt(ok, o, saved);
    }

    method PlainAt(go: bool, ghost r: Outcome, ghost saved: seq<Token>) returns (ok: bool, ghost o: Outcome)
      requires Stands(go, r, saved)
      modifies this
      ensures o == Plain(buffer, r) && Stands(ok, o, saved)
    {
      hide EqualAlt, GAlt, LAlt, ContainsAlt, Plain;
      PlainByFirst(buffer, r);
      if go && position < |buffer| && buffer[position] == '=' {
        ok, o := EqualAt(go, r, saved);
      } else if go && position < |buffer| && buffer[position] == '>' {
        ok, o := GAt(go, r, saved);
      } else if go && position < |buffer| && buffer[position] == '<' {
        ok, o := LAt(go, r, saved);
      } else {
        ok, o := ContainsAt(go, r, saved);
      }
    }

    method ComparisonAt(go: bool, ghost r: Outcome, ghost saved: seq<Token>) returns (ok: bool, ghost o: Outcome)
      requires Stands(go, r, saved)
      modifies this
      ensures o == Comparison(buffer, r) && Stands(ok, o, saved)
    {
      hide LeAlt, GeAlt, Plain;
      ok, o := LeAt(go, r, saved);
      if !ok {
        ok, o := GeAt(go, r, saved);
        if !ok {
          ok, o := PlainAt(go, r, saved);
        }
      }
    }

    method ConditionAt(go: bool, ghost r: Outcome, ghost saved: seq<Token>) returns (ok: bool, ghost o: Outcome)
      requires Stands(go, r, saved)
      modifies this
      ensures o == ConditionRule(buffer, r) && Stands(ok, o, saved)
      ensures !ok ==> position == old(position) && Tokens() == old(Tokens())
    {
      hide Mark, TagRule, Blank, Comparison;
      ghost var now := Tokens();
      var p, k := position, tokenIndex;
      ok, o := TagAt(go, r, now);
      o := Blanks(ok, o, now);
      ok, o := ComparisonAt(ok, o, now);
      o := Put(ok, Condition, p, o, now);
      Restore(ok, p, k, o, now, saved);
    }

    // ---- Queries ---------------------------------------------------------------------------

    method AndAt(go: bool, ghost r: Outcome, ghost saved: seq<Token>) returns (ok: bool, ghost o: Outcome)
      requires Stands(go, r, saved)
      modifies this
      ensures o == AndRule(buffer, r) && Stands(ok, o, saved)
    {
      hide Mark, Chr;
      var p := position;
      ok, o := Char(go, "aA", r, saved);
      ok, o := Char(ok, "nN", o, saved);
      ok, o := Char(ok, "dD", o, saved);
      o := Put(ok, And, p, o, saved);
    }

    method MoreAt(go: bool, ghost r: Outcome, ghost saved: seq<Token>) returns (ok: bool, ghost o: Outcome)
      requires Stands(go, r, saved)
      modifies this
      ensures o == More(buffer, r) && Stands(ok, o, saved)
      ensures !ok ==> position == old(position) && Tokens() == old(Tokens())
    {
      hide Gap, AndRule, ConditionRule;
      ghost var now := Tokens();
      var p, k := position, tokenIndex;
      ok, o := Gaps(go, r, now);
      ok, o := AndAt(ok, o, now);
      ok, o := Gaps(ok, o, now);
      ok, o := ConditionAt(ok, o, now);
      Restore(ok, p, k, o, now, saved);
    }

    method RestAt(go: bool, ghost r: Outcome, ghost saved: seq<Token>) returns (ghost o: Outcome)
      requires Stands(go, r, saved)
      modifies this
      ensures o == Rest(buffer, r) && Stands(go, o, saved)
    {
      hide More;
      o := r;
      var more := go;
      while more
        invariant Stands(go, o, saved) && Rest(buffer, o) == Rest(buffer, r)
        invariant more ==> go
        invariant !more ==> More(buffer, o).Fail?
        decreases |buffer| - position, more
      {
        ghost var next;
        more, next := MoreAt(true, o, saved);
        if more {
          o := next;
        }
      }
    }

    /** The rule for whole queries. */
    method Query() returns (ok: bool)
      requires Valid() && position == 0 && Tokens() == []
      modifies this
      ensures Valid()
      ensures match Parse(buffer)
              case Match(p, tokens) => ok && position == p && Tokens() == tokens
              case Fail => !ok && position == 0 && Tokens() == []
    {
      hide Mark, Chr, Rest, ConditionRule;
      ghost var o := Match(0, []);
      ok, o := Char(true, "\"", o, []);
      ok, o := ConditionAt(ok, o, []);
      o := RestAt(ok, o, []);
      ok, o := Char(ok, "\"", o, []);
      if ok && position < |buffer| {
        ok, o := false, Fail;
      }
      o := Put(ok, E, 0, o, []);
      Restore(ok, 0, 0, o, [], []);
    }
  }
}
