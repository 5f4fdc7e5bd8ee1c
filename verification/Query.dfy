/** Queries from text: parsing, listing and building, put together. */
module Queries {
  import opened Options
  import opened Utf8
  import opened QueryGrammar
  import opened QueryParsers
  import opened QueryReader
  import opened QueryJoin
  import opened QueryTexts
  import opened QueryLanguage
  import opened QueryBuilder
  import opened QueryPrinting
  import opened QueryRoundTrip

  /** Parses `s` between quotes; an error leaves no tokens behind. */
  method New(s: string) returns (parser: QueryParser, ok: bool)
    ensures fresh(parser) && parser.Valid() && parser.buffer == Quote(s)
    ensures ok <==> Parseable(s)
    ensures ok <==> exists cs :: QueryAt(Quote(s), cs)
    ensures ok ==> parser.Tokens() == Parse(Quote(s)).tokens
    ensures !ok ==> parser.Tokens() == []
  {
    hide Parse, QueryAt;
    parser := new QueryParser(Quote(s));
    ok := parser.Query();
    ParseExactly(Quote(s));
  }

  /** Built, printed, parsed and listed, conditions come back as they were exactly when legal and ASCII. */
  method BuildAndList(lib: Library, cs: seq<Cond>) returns (r: Option<seq<Cond>>)
    requires cs != [] && AllPrint(cs)
    ensures AllLegal(cs) && AllAscii(cs) <==> r == Some(EncodedAll(cs))
  {
    hide Parse, ReadTokens, AllLegal, AllAscii, Print, Encode;
    var builder := Build(cs);
    var parser, ok := New(builder.queryString);
    RoundTrip(lib, cs);
    if !ok {
      return None;
    }
    r := Conditions(lib, Encode(parser.buffer), parser.Tokens());
  }
}
