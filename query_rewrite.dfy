/**
 * The `symbols` query parameter: a comma-separated list is rewritten into the JSON array
 * the upstream expects; a value that already starts with "[" is left alone.
 */
module QueryRewrite {
  import opened Wrappers
  import opened Text
  import Json
  import Http

  const SymbolsKey := "symbols"

  /** Each piece with its surrounding white space removed. */
  function TrimmedAll(parts: seq<string>): (r: seq<string>)
    ensures |r| == |parts|
  {
    seq(|parts|, i requires 0 <= i < |parts| => TrimSpace(parts[i]))
  }

  /** The symbols named by a comma-separated value. */
  function Symbols(value: string): seq<string> {
    TrimmedAll(Split(value, ','))
  }

  /** The handler rewrites the parameter: it is present, has a first value, and that value does not start with "[". */
  predicate NeedsRewrite(q: Http.Multimap) {
    SymbolsKey in q && |q[SymbolsKey]| > 0 && !HasPrefix(q[SymbolsKey][0], "[")
  }

  /**
   * The query the upstream receives. When the first `symbols` value is a comma-separated
   * list, the key holds exactly one value, the JSON array of the trimmed pieces; otherwise
   * the query is unchanged. No other key is ever touched.
   */
  function RewriteSymbols(q: Http.Multimap): (r: Http.Multimap)
    ensures r.Keys == q.Keys
    ensures forall k :: k in q && k != SymbolsKey ==> r[k] == q[k]
    ensures !NeedsRewrite(q) ==> r == q
    ensures NeedsRewrite(q) ==> r[SymbolsKey] == [Json.MarshalStrings(Symbols(q[SymbolsKey][0]))]
    ensures SymbolsKey in r && |r[SymbolsKey]| > 0 ==> HasPrefix(r[SymbolsKey][0], "[") || r == q
  {
    if NeedsRewrite(q) then
      var list := Json.MarshalStrings(Symbols(q[SymbolsKey][0]));
      assert list[..1] == "[";
      Http.Set(q, SymbolsKey, list)
    else
      q
  }

  /** Rewriting twice is rewriting once: the rewritten value starts with "[". */
  lemma RewriteIdempotent(q: Http.Multimap)
    ensures RewriteSymbols(RewriteSymbols(q)) == RewriteSymbols(q)
  {
    var r := RewriteSymbols(q);
    if NeedsRewrite(q) {
      assert HasPrefix(r[SymbolsKey][0], "[");
    }
  }

  /**
   * The rewritten parameter has one value, and that value reads back, as a JSON array,
   * as exactly the symbols of the original first value.
   */
  lemma RewrittenSymbolsReadBack(q: Http.Multimap)
    requires NeedsRewrite(q)
    ensures |RewriteSymbols(q)[SymbolsKey]| == 1
    ensures Json.ParseStringArray(RewriteSymbols(q)[SymbolsKey][0]) == Some(Symbols(q[SymbolsKey][0]))
  {
    Json.MarshalRoundTrip(Symbols(q[SymbolsKey][0]));
  }

  /**
   * The symbols of a value are its comma-separated pieces, one per piece, each trimmed and
   * free of commas; the untrimmed pieces joined by commas give the value back.
   */
  lemma {:induction false} SymbolsArePieces(v: string)
    ensures |Symbols(v)| == Count(v, ',') + 1 == |Split(v, ',')|
    ensures forall i :: 0 <= i < |Symbols(v)| ==> Symbols(v)[i] == TrimSpace(Split(v, ',')[i]) && ',' !in Symbols(v)[i]
    ensures Join(Split(v, ','), ',') == v
  {
    JoinSplit(v, ',');
    forall i | 0 <= i < |Symbols(v)|
      ensures ',' !in Symbols(v)[i]
    {
      TrimSpaceAbsent(Split(v, ',')[i], ',');
    }
  }

  /** Trims every element of the slice in place (the loop over `symbolsList`). */
  method TrimEach(a: array<string>)
    modifies a
    ensures a[..] == TrimmedAll(old(a[..]))
  {
    var i := 0;
    while i < a.Length
      invariant 0 <= i <= a.Length
      invariant forall k :: 0 <= k < i ==> a[k] == TrimSpace(old(a[k]))
      invariant forall k :: i <= k < a.Length ==> a[k] == old(a[k])
    {
      a[i] := TrimSpace(a[i]);
      i := i + 1;
    }
  }

  /** Splits a comma-separated value into a fresh slice and trims each piece in place. */
  method SplitAndTrim(value: string) returns (symbols: seq<string>)
    ensures symbols == Symbols(value)
  {
    var parts := Split(value, ',');
    var list := new string[|parts|](i requires 0 <= i < |parts| => parts[i]);
    assert list[..] == parts;
    TrimEach(list);
    symbols := list[..];
  }

  /** The handler's rewrite of its copy of the query. */
  method NormalizeSymbols(q: Http.Multimap) returns (r: Http.Multimap)
    ensures r == RewriteSymbols(q)
  {
    r := q;
    if SymbolsKey in q && |q[SymbolsKey]| > 0 {
      var value := q[SymbolsKey][0];
      if !HasPrefix(value, "[") {
        var symbols := SplitAndTrim(value);
        // json.Marshal cannot fail on a list of strings, so its error branch is not modelled.
        r := Http.Set(r, SymbolsKey, Json.MarshalStrings(symbols));
      }
    }
  }

  predicate Plain(s: string) {
    s != [] && forall i :: 0 <= i < |s| ==> Json.IsPlain(s[i])
  }

  /**
   * Two plain symbols separated by a comma, with or without spaces around them, become the
   * JSON array of the two symbols: "BTCUSDT, ETHUSDT " gives ["BTCUSDT","ETHUSDT"], and so
   * does "BTCUSDT,ETHUSDT".
   */
  lemma TwoSymbolsConverted(a: string, b: string, second: string)
    requires Plain(a) && Plain(b)
    requires second == b || second == b + [' '] || second == [' '] + b || second == [' '] + b + [' ']
    ensures Json.MarshalStrings(Symbols(a + "," + second)) == "[\"" + a + "\",\"" + b + "\"]"
  {
    assert ',' !in a && ',' !in second;
    TrimPadded(a, a);
    TrimPadded(b, second);
    TwoPieces(a, b, second);
    PlainArray(a, b);
  }

  lemma TwoPieces(a: string, b: string, second: string)
    requires ',' !in a && ',' !in second
    requires TrimSpace(a) == a && TrimSpace(second) == b
    ensures Symbols(a + "," + second) == [a, b]
  {
    assert a + "," + second == a + [','] + second;
    SplitPair(a, ',', second);
  }

  lemma PlainArray(a: string, b: string)
    requires Plain(a) && Plain(b)
    ensures Json.MarshalStrings([a, b]) == "[\"" + a + "\",\"" + b + "\"]"
  {
    Json.EscapePlain(a);
    Json.EscapePlain(b);
    assert [a, b][1..] == [b];
    assert Json.Elements([a, b]) == Json.Quote(a) + [','] + Json.Quote(b);
    QuotedPair(a, b);
  }

  lemma QuotedPair(a: string, b: string)
    ensures ['['] + ((['"'] + a + ['"']) + [','] + (['"'] + b + ['"'])) + [']'] == "[\"" + a + "\",\"" + b + "\"]"
  {
    assert "[\"" == ['['] + ['"'];
    assert "\",\"" == ['"'] + [','] + ['"'];
    assert "\"]" == ['"'] + [']'];
  }
}
