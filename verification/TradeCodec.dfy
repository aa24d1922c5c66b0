/** The hand-written JSON printers of the feeds and the substring-search reader of the warehouse:
    modules/market-feed/src/redis_publisher.cpp, modules/stock-feed/src/main.cpp and
    modules/data-warehouse/src/main.cpp, over printed number tokens. */
module TradeCodec {
  import opened Text
  import opened Rollup

  /** A trade as it is printed. `id` is what only the market feed appends. */
  datatype Trade = Trade(symbol: string, price: string, qty: string, buy: bool,
                         exTs: string, localTs: string, id: Option<string>)

  function Side(t: Trade): string {
    if t.buy then "1" else "2"
  }

  /** `"key":value,` before the rest. */
  function Field(key: string, value: string, rest: string): string {
    NumberKey(key) + (value + ("," + rest))
  }

  /** What only the market feed appends, and the closing brace. */
  function Close(t: Trade): string {
    if t.id.Some? then "," + StringKey("trade_id") + t.id.value + "\"}" else "}"
  }

  /** The two stamps, which the warehouse never asks for. */
  function Ending(t: Trade): string {
    Field("ex_ts", t.exTs, Local(t))
  }

  function Local(t: Trade): string {
    NumberKey("local_ts") + (t.localTs + Close(t))
  }

  /** trade_to_json of either feed: the pieces in the order they are written to the stream. */
  function TradeToJson(t: Trade): string {
    "{" + (StringKey("symbol") + (t.symbol + ("\"," +
      Field("price", t.price, Field("qty", t.qty, Field("side", Side(t), Ending(t)))))))
  }

  /** The stream operators of the printer, one field after the other. */
  method PrintTrade(t: Trade) returns (os: string)
    ensures os == TradeToJson(t)
  {
    ghost var side := Field("side", Side(t), Ending(t));
    ghost var qty := Field("qty", t.qty, side);
    ghost var rest := Field("price", t.price, qty);
    os := "{" + StringKey("symbol") + t.symbol + "\",";
    PrintSymbol(t.symbol, rest, os);
    os := PrintField(os, "price", t.price, qty);
    os := PrintField(os, "qty", t.qty, side);
    os := PrintField(os, "side", Side(t), Ending(t));
    os := PrintField(os, "ex_ts", t.exTs, Local(t));
    os := os + (NumberKey("local_ts")
                + (t.localTs + if t.id.Some? then "," + StringKey("trade_id") + t.id.value + "\"}" else "}"));
  }

  method PrintField(os: string, key: string, value: string, ghost rest: string) returns (out: string)
    ensures out + rest == os + Field(key, value, rest)
  {
    out := os + NumberKey(key) + value + ",";
    FieldInFront(os, NumberKey(key), value, rest);
  }

  lemma {:induction false} FieldInFront(os: string, key: string, value: string, rest: string)
    ensures os + key + value + "," + rest == os + (key + (value + ("," + rest)))
  {
    assert key + value + "," + rest == key + (value + ("," + rest));
  }

  lemma {:induction false} PrintSymbol(symbol: string, rest: string, os: string)
    requires os == "{" + StringKey("symbol") + symbol + "\","
    ensures os + rest == "{" + (StringKey("symbol") + (symbol + ("\"," + rest)))
  {
    assert StringKey("symbol") + symbol + "\"," + rest == StringKey("symbol") + (symbol + ("\"," + rest));
  }

  /** The text that is printed, byte for byte. */
  lemma {:induction false} PrintedText(t: Trade)
    ensures TradeToJson(t)
         == "{\"symbol\":\"" + (t.symbol + ("\",\"price\":" + (t.price + (",\"qty\":" + (t.qty + (",\"side\":" +
            ((if t.buy then "1" else "2") + (",\"ex_ts\":" + (t.exTs + (",\"local_ts\":" + (t.localTs +
            (if t.id.Some? then ",\"trade_id\":\"" + (t.id.value + "\"}") else "}"))))))))))))
  {
    var close := if t.id.Some? then ",\"trade_id\":\"" + (t.id.value + "\"}") else "}";
    ClosingText(t, close);
    var local := t.localTs + close;
    CommaKey("local_ts", ",\"local_ts\":", local);
    var exTs := t.exTs + (",\"local_ts\":" + local);
    CommaKey("ex_ts", ",\"ex_ts\":", exTs);
    var side := Side(t) + (",\"ex_ts\":" + exTs);
    CommaKey("side", ",\"side\":", side);
    var qty := t.qty + (",\"side\":" + side);
    CommaKey("qty", ",\"qty\":", qty);
    var price := t.price + (",\"qty\":" + qty);
    SymbolText(t.symbol, price);
  }

  lemma {:induction false} ClosingText(t: Trade, close: string)
    requires close == if t.id.Some? then ",\"trade_id\":\"" + (t.id.value + "\"}") else "}"
    ensures Close(t) == close
  {
    if t.id.Some? {
      assert "," + StringKey("trade_id") == ",\"trade_id\":\"";
      assert "," + StringKey("trade_id") + t.id.value + "\"}" == ",\"trade_id\":\"" + (t.id.value + "\"}");
    }
  }

  lemma {:induction false} CommaKey(key: string, opens: string, rest: string)
    requires opens == ",\"" + key + "\":"
    ensures "," + (NumberKey(key) + rest) == opens + rest
  {
    assert "," + NumberKey(key) == opens;
  }

  lemma {:induction false} SymbolText(symbol: string, price: string)
    ensures "{" + (StringKey("symbol") + (symbol + ("\"," + (NumberKey("price") + price))))
         == "{\"symbol\":\"" + (symbol + ("\",\"price\":" + price))
  {
    assert "{" + StringKey("symbol") == "{\"symbol\":\"";
    assert "\"," + NumberKey("price") == "\",\"price\":";
    assert "\"," + (NumberKey("price") + price) == "\",\"price\":" + price;
  }

  // ----- The reader -----

  predicate Blank(c: char) {
    c == ' ' || c == '"'
  }

  predicate Stop(c: char) {
    c == ',' || c == '}' || c == '"'
  }

  /** Position of the first character from `p` on that is not a space or a quote. */
  function SkipBlanks(json: string, p: nat): (r: nat)
    requires p <= |json|
    ensures p <= r <= |json|
    decreases |json| - p
  {
    if p < |json| && Blank(json[p]) then SkipBlanks(json, p + 1) else p
  }

  /** Position of the first comma, closing brace or quote from `e` on. */
  function TokenEnd(json: string, e: nat): (r: nat)
    requires e <= |json|
    ensures e <= r <= |json|
    decreases |json| - e
  {
    if e < |json| && !Stop(json[e]) then TokenEnd(json, e + 1) else e
  }

  function NumberKey(key: string): string {
    "\"" + key + "\":"
  }

  /** The token getd() converts; None when the key is missing and it returns 0. */
  function NumberToken(json: string, key: string): Option<string> {
    var k := NumberKey(key);
    match Find(json, k, 0)
    case None => None
    case Some(p) =>
      var from := SkipBlanks(json, p + |k|);
      Some(json[from..TokenEnd(json, from)])
  }

  method GetNumber(json: string, key: string) returns (token: Option<string>)
    ensures token == NumberToken(json, key)
  {
    var k := NumberKey(key);
    var found := Find(json, k, 0);
    if found.None? {
      return None;
    }
    var p := found.value + |k|;
    ghost var from := SkipBlanks(json, p);
    while p < |json| && (json[p] == ' ' || json[p] == '"')
      invariant p <= |json| && SkipBlanks(json, p) == from
    {
      p := p + 1;
    }
    var e := p;
    while e < |json| && json[e] != ',' && json[e] != '}' && json[e] != '"'
      invariant p <= e <= |json| && TokenEnd(json, e) == TokenEnd(json, p)
    {
      e := e + 1;
    }
    token := Some(json[p..e]);
  }

  function StringKey(key: string): string {
    "\"" + key + "\":\""
  }

  /** gets(): up to the next quote, or to the end when there is none; empty when the key is missing. */
  function GetString(json: string, key: string): (s: string)
    ensures (forall q: nat :: !At(json, StringKey(key), q)) ==> s == ""
  {
    var k := StringKey(key);
    match Find(json, k, 0)
    case None => ""
    case Some(p) =>
      match Find(json, "\"", p + |k|)
      case Some(e) => json[p + |k|..e]
      case None => json[p + |k|..]
  }

  method ReadString(json: string, key: string) returns (s: string)
    ensures s == GetString(json, key)
  {
    var k := StringKey(key);
    var found := Find(json, k, 0);
    if found.None? {
      return "";
    }
    var p := found.value + |k|;
    var e := Find(json, "\"", p);
    s := if e.Some? then json[p..e.value] else json[p..];
  }

  /** std::stod: None when it throws. */
  type Stod = string -> Option<real>

  /** getd(): 0 for a missing key. */
  function Number(json: string, key: string, stod: Stod): (n: Option<real>)
    ensures (forall q: nat :: !At(json, NumberKey(key), q)) ==> n == Some(0.0)
  {
    match NumberToken(json, key)
    case None => Some(0.0)
    case Some(token) => stod(token)
  }

  method ReadNumber(json: string, key: string, stod: Stod) returns (n: Option<real>)
    ensures n == Number(json, key, stod)
  {
    var token := GetNumber(json, key);
    n := if token.None? then Some(0.0) else stod(token.value);
  }

  /** trade_to_row() at clock reading `ts`; None when a number does not convert. */
  function RowOf(channel: string, payload: string, ts: int, stod: Stod): Option<Row> {
    var price, qty, side := Number(payload, "price", stod), Number(payload, "qty", stod), Number(payload, "side", stod);
    if price.None? || qty.None? || side.None? then None
    else Some(Row(ts, "trade", [("channel", channel), ("symbol", GetString(payload, "symbol"))],
                  [("price", price.value), ("qty", qty.value), ("side", side.value)]))
  }

  method TradeToRow(channel: string, payload: string, ts: int, stod: Stod) returns (r: Option<Row>)
    ensures r == RowOf(channel, payload, ts, stod)
  {
    var symbol := ReadString(payload, "symbol");
    var price := ReadNumber(payload, "price", stod);
    if price.None? {
      return None;
    }
    var qty := ReadNumber(payload, "qty", stod);
    if qty.None? {
      return None;
    }
    var side := ReadNumber(payload, "side", stod);
    if side.None? {
      return None;
    }
    r := Some(Row(ts, "trade", [("channel", channel), ("symbol", symbol)],
                  [("price", price.value), ("qty", qty.value), ("side", side.value)]));
  }

  // ----- Searching a text cut at its quotes -----

  predicate QuoteFree(s: string) {
    '"' !in s
  }

  lemma {:induction false} FirstChar(text: string, needle: string, p: nat)
    requires At(text, needle, p) && needle != ""
    ensures text[p] == needle[0]
  {
    assert text[p..p + |needle|][0] == needle[0];
  }

  lemma {:induction false} NotBeforeQuote(a: string, b: string, needle: string, text: string, q: nat)
    requires QuoteFree(a) && text == a + "\"" + b && needle != "" && needle[0] == '"' && q < |a|
    ensures !At(text, needle, q)
  {
    assert text[q] == a[q];
    if At(text, needle, q) {
      FirstChar(text, needle, q);
    }
  }

  lemma {:induction false} AtTheQuote(a: string, b: string, needle: string, text: string)
    requires text == a + "\"" + b && needle != "" && needle[0] == '"'
    ensures At(text, needle, |a|) <==> needle[1..] <= b
  {
    assert needle == "\"" + needle[1..];
    if |a| + |needle| <= |text| {
      assert text[|a|..|a| + |needle|] == "\"" + b[..|needle| - 1];
    }
  }

  lemma {:induction false} BehindQuote(a: string, b: string, needle: string, text: string, m: nat, q: nat)
    requires text == a + "\"" + b && m == |a| + 1 <= q
    ensures At(text, needle, q) <==> At(b, needle, q - m)
  {
    if q + |needle| <= |text| {
      assert text[q..q + |needle|] == b[q - m..q - m + |needle|];
    }
  }

  /** A needle that begins with a quote is found at the first quote when it stands there. */
  lemma {:induction false} FoundAtQuote(a: string, b: string, needle: string, text: string)
    requires QuoteFree(a) && text == a + "\"" + b && needle != "" && needle[0] == '"'
    requires needle[1..] <= b
    ensures Find(text, needle, 0) == Some(|a|)
  {
    AtTheQuote(a, b, needle, text);
    forall q: nat | q < |a|
      ensures !At(text, needle, q)
    {
      NotBeforeQuote(a, b, needle, text, q);
    }
  }

  /** Otherwise it is found by searching on behind that quote. */
  lemma {:induction false} FoundBehindQuote(a: string, b: string, needle: string, text: string, m: nat, p: nat, p': nat)
    requires QuoteFree(a) && text == a + "\"" + b && needle != "" && needle[0] == '"'
    requires !(needle[1..] <= b) && Find(b, needle, 0) == Some(p) && m == |a| + 1 && p' == m + p
    ensures Find(text, needle, 0) == Some(p')
  {
    forall q: nat | q < p'
      ensures !At(text, needle, q)
    {
      if q < |a| {
        NotBeforeQuote(a, b, needle, text, q);
      } else if q == |a| {
        AtTheQuote(a, b, needle, text);
      } else {
        BehindQuote(a, b, needle, text, m, q);
      }
    }
    BehindQuote(a, b, needle, text, m, p');
  }

  /** The text whose pieces between quotes are `segs`. */
  function Quoted(segs: seq<string>): string {
    if segs == [] then "" else if |segs| == 1 then segs[0] else segs[0] + "\"" + Quoted(segs[1..])
  }

  /** Whether piece `j` reads as the key: named so, and followed by a colon. */
  predicate KeyAt(segs: seq<string>, j: nat, key: string) {
    0 < j && j + 1 < |segs| && segs[j] == key && segs[j + 1] != "" && segs[j + 1][0] == ':'
  }

  lemma {:induction false} ColonFirst(segs: seq<string>)
    requires segs != []
    ensures Quoted(segs) != "" && Quoted(segs)[0] == ':' <==> segs[0] != "" && segs[0][0] == ':'
  {
  }

  /** Behind a quote the key starts exactly when the piece there is the key and a colon follows. */
  lemma {:induction false} KeyBehindQuote(s: string, c: string, key: string, b: string)
    requires QuoteFree(s) && QuoteFree(key) && b == s + "\"" + c
    ensures NumberKey(key)[1..] <= b <==> s == key && c != "" && c[0] == ':'
  {
    var prefix := NumberKey(key)[1..];
    assert prefix == key + "\":";
    if prefix <= b {
      assert b[|key|] == prefix[|key|] && b[|key| + 1] == prefix[|key| + 1];
      assert forall i | 0 <= i < |key| :: b[i] == prefix[i] == key[i];
      assert forall i | 0 <= i < |s| :: b[i] == s[i];
      assert b[|s|] == '"';
      assert |s| == |key|;
      assert c[0] == b[|s| + 1];
    }
  }

  /** The text behind the first quote starts with the key exactly when piece 1 reads as it. */
  lemma {:induction false} SecondPieceDecides(segs: seq<string>, key: string, b: string)
    requires |segs| > 2 && QuoteFree(segs[1]) && QuoteFree(key) && b == Quoted(segs[1..])
    ensures NumberKey(key)[1..] <= b <==> KeyAt(segs, 1, key)
  {
    var c := Quoted(segs[2..]);
    TwoPieces(segs, segs[0], segs[1], b, c);
    ColonFirst(segs[2..]);
    KeyBehindQuote(segs[1], c, key, b);
  }

  lemma {:induction false} FoundHere(segs: seq<string>, key: string, rest: string) returns (p: nat, n: nat)
    requires QuoteFree(key) && KeyAt(segs, 1, key) && QuoteFree(segs[0]) && rest == Quoted(segs[2..])
    ensures Find(Quoted(segs), NumberKey(key), 0) == Some(p) && n == p + |NumberKey(key)| <= |Quoted(segs)|
    ensures rest != "" && Quoted(segs)[n..] == rest[1..]
  {
    var a, b := segs[0], Quoted(segs[1..]);
    SecondPieceDecides(segs, key, b);
    TwoPieces(segs, a, key, b, rest);
    ColonFirst(segs[2..]);
    FoundAtQuote(a, b, NumberKey(key), Quoted(segs));
    p, n := |a|, |a| + |NumberKey(key)|;
    DropsTo(a, key, rest, Quoted(segs), n);
  }

  lemma {:induction false} FoundLater(segs: seq<string>, key: string, p0: nat, n0: nat) returns (p: nat, n: nat)
    requires |segs| > 2 && QuoteFree(segs[0]) && QuoteFree(segs[1]) && QuoteFree(key) && !KeyAt(segs, 1, key)
    requires Find(Quoted(segs[1..]), NumberKey(key), 0) == Some(p0)
    requires n0 == p0 + |NumberKey(key)| <= |Quoted(segs[1..])|
    ensures Find(Quoted(segs), NumberKey(key), 0) == Some(p) && n == p + |NumberKey(key)| <= |Quoted(segs)|
    ensures Quoted(segs)[n..] == Quoted(segs[1..])[n0..]
  {
    var a, b, m := segs[0], Quoted(segs[1..]), |segs[0]| + 1;
    SecondPieceDecides(segs, key, b);
    p, n := m + p0, m + n0;
    FoundBehindQuote(a, b, NumberKey(key), Quoted(segs), m, p0, p);
    DropsBehind(a, b, Quoted(segs), m, n0);
  }

  /** The first piece that reads as the key is what the search finds, and this is what follows it. */
  lemma {:induction false} FindsKey(segs: seq<string>, key: string, j: nat, rest: string) returns (p: nat, n: nat)
    requires QuoteFree(key) && KeyAt(segs, j, key) && rest == Quoted(segs[j + 1..])
    requires forall i | 0 <= i <= j :: QuoteFree(segs[i])
    requires forall i | 0 < i < j :: !KeyAt(segs, i, key)
    ensures Find(Quoted(segs), NumberKey(key), 0) == Some(p) && n == p + |NumberKey(key)| <= |Quoted(segs)|
    ensures rest != "" && Quoted(segs)[n..] == rest[1..]
  {
    if j == 1 {
      p, n := FoundHere(segs, key, rest);
    } else {
      LaterKeys(segs, segs[1..], key, j);
      assert segs[1..][j..] == segs[j + 1..];
      p, n := FindsKey(segs[1..], key, j - 1, rest);
      p, n := FoundLater(segs, key, p, n);
    }
  }

  lemma {:induction false} TwoPieces(segs: seq<string>, a: string, s: string, b: string, c: string)
    requires |segs| > 2 && a == segs[0] && s == segs[1] && b == Quoted(segs[1..]) && c == Quoted(segs[2..])
    ensures Quoted(segs) == a + "\"" + b && b == s + "\"" + c
  {
    assert segs[1..][1..] == segs[2..];
  }

  lemma {:induction false} DropsBehind(a: string, b: string, text: string, m: nat, n: nat)
    requires text == a + "\"" + b && m == |a| + 1 && n <= |b|
    ensures m + n <= |text| && text[m + n..] == b[n..]
  {
  }

  lemma {:induction false} LaterKeys(segs: seq<string>, later: seq<string>, key: string, j: nat)
    requires 1 < j && KeyAt(segs, j, key) && later == segs[1..]
    requires forall i | 0 < i < j :: !KeyAt(segs, i, key)
    ensures KeyAt(later, j - 1, key)
    ensures forall i | 0 < i < j - 1 :: !KeyAt(later, i, key)
  {
    forall i | 0 < i < j - 1
      ensures !KeyAt(later, i, key)
    {
      assert !KeyAt(segs, i + 1, key);
    }
  }

  lemma {:induction false} DropsTo(a: string, key: string, c: string, text: string, n: nat)
    requires text == a + "\"" + (key + "\"" + c) && c != "" && n == |a| + |key| + 3
    ensures n <= |text| && text[n..] == c[1..]
  {
  }

  // ----- Reading a printed trade back -----

  /** No comma, closing brace or quote, and no space in front: what getd() can give back. */
  predicate Clean(token: string) {
    && (forall i | 0 <= i < |token| :: token[i] != ',' && token[i] != '}' && token[i] != '"')
    && (token != "" ==> token[0] != ' ')
  }

  lemma {:induction false} TokenRuns(json: string, p: nat, token: string)
    requires p + |token| < |json| && json[p..p + |token|] == token && Stop(json[p + |token|])
    requires forall i | 0 <= i < |token| :: !Stop(token[i])
    ensures TokenEnd(json, p) == p + |token|
    decreases |token|
  {
    if token != "" {
      assert json[p] == token[0];
      assert json[p + 1..p + |token|] == token[1..];
      TokenRuns(json, p + 1, token[1..]);
    }
  }

  /** What follows a printed number. */
  predicate Ends(more: string) {
    more != "" && (more[0] == ',' || more[0] == '}')
  }

  /** A clean token in front of a comma or closing brace is read whole. */
  lemma {:induction false} TokenReadBack(json: string, n: nat, token: string, more: string)
    requires n <= |json| && json[n..] == token + more && Clean(token) && Ends(more)
    ensures SkipBlanks(json, n) == n && json[n..TokenEnd(json, n)] == token
  {
    assert json[n + |token|] == json[n..][|token|] == more[0];
    assert json[n..n + |token|] == json[n..][..|token|] == token;
    if token != "" {
      assert json[n] == token[0];
    }
    TokenRuns(json, n, token);
  }

  lemma {:induction false} SkipEndsNonBlank(json: string, p: nat)
    requires p <= |json|
    ensures SkipBlanks(json, p) < |json| ==> !Blank(json[SkipBlanks(json, p)])
    decreases |json| - p
  {
    if p < |json| && Blank(json[p]) {
      SkipEndsNonBlank(json, p + 1);
    }
  }

  lemma {:induction false} TokenHasNoStop(json: string, e: nat)
    requires e <= |json|
    ensures forall i | e <= i < TokenEnd(json, e) :: !Stop(json[i])
    decreases |json| - e
  {
    if e < |json| && !Stop(json[e]) {
      TokenHasNoStop(json, e + 1);
    }
  }

  /** Whatever text it reads, getd() only ever converts a clean token. */
  lemma {:induction false} ReadTokensAreClean(json: string, key: string)
    ensures NumberToken(json, key).Some? ==> Clean(NumberToken(json, key).value)
  {
    var found := Find(json, NumberKey(key), 0);
    if found.Some? {
      var from := SkipBlanks(json, found.value + |NumberKey(key)|);
      SkipEndsNonBlank(json, found.value + |NumberKey(key)|);
      TokenHasNoStop(json, from);
    }
  }

  /** Whatever text it reads, gets() only ever gives back a quote-free string. */
  lemma {:induction false} ReadStringsAreQuoteFree(json: string, key: string)
    ensures QuoteFree(GetString(json, key))
  {
    var found := Find(json, StringKey(key), 0);
    if found.Some? {
      var n := found.value + |StringKey(key)|;
      var e := Find(json, "\"", n);
      var end := if e.Some? then e.value else |json|;
      forall i | n <= i < end
        ensures json[i] != '"'
      {
        assert json[i..i + 1] == [json[i]];
        assert !At(json, "\"", i);
      }
    }
  }

  /** The printed trade cut at the quotes up to the last key. */
  function Pieces(t: Trade): seq<string> {
    ["{", "symbol", ":", t.symbol, ","] + FieldPieces("price", t.price) + FieldPieces("qty", t.qty)
    + FieldPieces("side", Side(t)) + FieldPieces("ex_ts", t.exTs) + ["local_ts", ":" + (t.localTs + Close(t))]
  }

  function FieldPieces(key: string, value: string): seq<string> {
    [key, ":" + value + ","]
  }

  lemma {:induction false} QuotedCons(s: string, segs: seq<string>)
    requires segs != []
    ensures Quoted([s] + segs) == s + ("\"" + Quoted(segs))
  {
    assert ([s] + segs)[1..] == segs;
  }

  /** A field in front of text that starts with a quote is two more pieces. */
  lemma {:induction false} FieldQuoted(key: string, value: string, segs: seq<string>)
    requires segs != []
    ensures Field(key, value, "\"" + Quoted(segs)) == "\"" + Quoted(FieldPieces(key, value) + segs)
  {
    var colon := ":" + value + ",";
    QuotedCons(colon, segs);
    QuotedCons(key, [colon] + segs);
    assert FieldPieces(key, value) + segs == [key] + ([colon] + segs);
    assert NumberKey(key) == "\"" + key + "\":";
  }

  lemma {:induction false} LocalQuoted(t: Trade)
    ensures Local(t) == "\"" + Quoted(["local_ts", ":" + (t.localTs + Close(t))])
  {
    var local := ["local_ts", ":" + (t.localTs + Close(t))];
    assert local[1..] == [":" + (t.localTs + Close(t))];
    assert NumberKey("local_ts") == "\"" + "local_ts" + "\":";
  }

  lemma {:induction false} FieldsQuoted(t: Trade) returns (price: seq<string>)
    ensures price != [] && Pieces(t) == ["{", "symbol", ":", t.symbol, ","] + price
    ensures Field("price", t.price, Field("qty", t.qty, Field("side", Side(t), Ending(t)))) == "\"" + Quoted(price)
  {
    var local := ["local_ts", ":" + (t.localTs + Close(t))];
    LocalQuoted(t);
    FieldQuoted("ex_ts", t.exTs, local);
    var exTs := FieldPieces("ex_ts", t.exTs) + local;
    FieldQuoted("side", Side(t), exTs);
    var side := FieldPieces("side", Side(t)) + exTs;
    FieldQuoted("qty", t.qty, side);
    var qty := FieldPieces("qty", t.qty) + side;
    FieldQuoted("price", t.price, qty);
    price := FieldPieces("price", t.price) + qty;
  }

  lemma {:induction false} JsonIsPieces(t: Trade)
    ensures Quoted(Pieces(t)) == TradeToJson(t)
  {
    var price := FieldsQuoted(t);
    QuotedCons(",", price);
    QuotedCons(t.symbol, [","] + price);
    QuotedCons(":", [t.symbol] + ([","] + price));
    QuotedCons("symbol", [":"] + ([t.symbol] + ([","] + price)));
    QuotedCons("{", ["symbol"] + ([":"] + ([t.symbol] + ([","] + price))));
    assert Pieces(t) == ["{"] + (["symbol"] + ([":"] + ([t.symbol] + ([","] + price))));
    SymbolOpens(t.symbol, "\"" + Quoted(price));
    assert TradeToJson(t) == "{" + (StringKey("symbol") + (t.symbol + ("\"," + ("\"" + Quoted(price)))));
  }

  lemma {:induction false} SymbolOpens(symbol: string, rest: string)
    ensures "{" + ("\"" + ("symbol" + ("\"" + (":" + ("\"" + (symbol + ("\"" + ("," + rest))))))))
         == "{" + (StringKey("symbol") + (symbol + ("\"," + rest)))
  {
    assert StringKey("symbol") == "\"" + ("symbol" + ("\"" + (":" + "\"")));
  }

  /** A clean value after the first piece that reads as its key comes back whole. */
  lemma {:induction false} NumberReadBack(segs: seq<string>, key: string, j: nat, value: string, more: string,
                                          rest: string)
    requires QuoteFree(key) && KeyAt(segs, j, key) && Clean(value) && Ends(more)
    requires rest == Quoted(segs[j + 1..]) && rest == ":" + (value + more)
    requires forall i | 0 <= i <= j :: QuoteFree(segs[i])
    requires forall i | 0 < i < j :: !KeyAt(segs, i, key)
    ensures NumberToken(Quoted(segs), key) == Some(value)
  {
    var p, n := FindsKey(segs, key, j, rest);
    assert rest[1..] == value + more;
    ValueToken(Quoted(segs), key, p, n, value, more);
  }

  lemma {:induction false} ValueToken(json: string, key: string, p: nat, n: nat, value: string, more: string)
    requires Find(json, NumberKey(key), 0) == Some(p) && n == p + |NumberKey(key)| <= |json|
    requires json[n..] == value + more && Clean(value) && Ends(more)
    ensures NumberToken(json, key) == Some(value)
  {
    TokenReadBack(json, n, value, more);
    TokenFrom(json, key, p, n, SkipBlanks(json, n), TokenEnd(json, n));
  }

  lemma {:induction false} TokenFrom(json: string, key: string, p: nat, n: nat, from: nat, end: nat)
    requires Find(json, NumberKey(key), 0) == Some(p) && n == p + |NumberKey(key)| <= |json|
    requires from == SkipBlanks(json, n) && end == TokenEnd(json, from)
    ensures NumberToken(json, key) == Some(json[from..end])
  {
  }

  lemma {:induction false} ValuePiece(segs: seq<string>, k: nat, value: string)
    requires k + 1 < |segs| && segs[k] == ":" + value + ","
    ensures Quoted(segs[k..]) == ":" + (value + ("," + ("\"" + Quoted(segs[k + 1..]))))
  {
    assert segs[k..] == [segs[k]] + segs[k + 1..];
    QuotedCons(segs[k], segs[k + 1..]);
  }

  lemma {:induction false} PiecesQuoteFree(t: Trade)
    requires QuoteFree(t.symbol) && Clean(t.price) && Clean(t.qty)
    ensures forall i | 0 <= i < 12 :: QuoteFree(Pieces(t)[i])
    ensures Clean(t.exTs) ==> QuoteFree(Pieces(t)[12]) && QuoteFree(Pieces(t)[13])
  {
    var segs := Pieces(t);
    assert segs[6] == ":" + t.price + "," && segs[8] == ":" + t.qty + ",";
    assert segs[10] == ":" + Side(t) + "," && segs[12] == ":" + t.exTs + ",";
    assert segs[3] == t.symbol;
  }

  /** Only the intended pieces read as keys; a symbol spelled like one is followed by a comma. */
  lemma {:induction false} PiecesKeys(t: Trade, i: nat, key: string)
    requires 0 < i < 14 && KeyAt(Pieces(t), i, key) && key != ":"
    ensures || (i == 1 && key == "symbol") || (i == 5 && key == "price") || (i == 7 && key == "qty")
            || (i == 9 && key == "side") || (i == 11 && key == "ex_ts") || (i == 13 && key == "local_ts")
  {
    var segs := Pieces(t);
    assert segs[2] == ":" && segs[4] == "," && segs[5] == "price" && segs[7] == "qty" && segs[9] == "side";
    assert segs[11] == "ex_ts" && segs[13] == "local_ts";
  }

  /** The value behind key piece `j` of a printed trade is read under its key. */
  lemma {:induction false} FieldReadBack(t: Trade, key: string, j: nat, value: string)
    requires QuoteFree(t.symbol) && Clean(t.price) && Clean(t.qty) && (j < 12 || Clean(t.exTs)) && Clean(value)
    requires j in {5, 7, 9, 11} && Pieces(t)[j] == key && Pieces(t)[j + 1] == ":" + value + ","
    ensures NumberToken(TradeToJson(t), key) == Some(value)
  {
    var segs := Pieces(t);
    PiecesQuoteFree(t);
    forall i | 0 < i < j
      ensures !KeyAt(segs, i, key)
    {
      if KeyAt(segs, i, key) {
        PiecesKeys(t, i, key);
      }
    }
    ValuePiece(segs, j + 1, value);
    NumberReadBack(segs, key, j, value, "," + ("\"" + Quoted(segs[j + 2..])), Quoted(segs[j + 1..]));
    JsonIsPieces(t);
  }

  lemma {:induction false} PriceReadBack(t: Trade)
    requires QuoteFree(t.symbol) && Clean(t.price) && Clean(t.qty)
    ensures NumberToken(TradeToJson(t), "price") == Some(t.price)
  {
    FieldReadBack(t, "price", 5, t.price);
  }

  lemma {:induction false} QtyReadBack(t: Trade)
    requires QuoteFree(t.symbol) && Clean(t.price) && Clean(t.qty)
    ensures NumberToken(TradeToJson(t), "qty") == Some(t.qty)
  {
    FieldReadBack(t, "qty", 7, t.qty);
  }

  lemma {:induction false} SideReadBack(t: Trade)
    requires QuoteFree(t.symbol) && Clean(t.price) && Clean(t.qty)
    ensures NumberToken(TradeToJson(t), "side") == Some(if t.buy then "1" else "2")
  {
    FieldReadBack(t, "side", 9, Side(t));
  }

  /** The two stamps are read under their own keys as well. */
  lemma {:induction false} StampsReadBack(t: Trade)
    requires QuoteFree(t.symbol) && Clean(t.price) && Clean(t.qty) && Clean(t.exTs) && Clean(t.localTs)
    ensures NumberToken(TradeToJson(t), "ex_ts") == Some(t.exTs)
    ensures NumberToken(TradeToJson(t), "local_ts") == Some(t.localTs)
  {
    FieldReadBack(t, "ex_ts", 11, t.exTs);
    LocalReadBack(t);
  }

  lemma {:induction false} LocalReadBack(t: Trade)
    requires QuoteFree(t.symbol) && Clean(t.price) && Clean(t.qty) && Clean(t.exTs) && Clean(t.localTs)
    ensures NumberToken(TradeToJson(t), "local_ts") == Some(t.localTs)
  {
    var segs := Pieces(t);
    PiecesQuoteFree(t);
    forall i | 0 < i < 13
      ensures !KeyAt(segs, i, "local_ts")
    {
      if KeyAt(segs, i, "local_ts") {
        PiecesKeys(t, i, "local_ts");
      }
    }
    assert segs[14..] == [":" + (t.localTs + Close(t))];
    NumberReadBack(segs, "local_ts", 13, t.localTs, Close(t), Quoted(segs[14..]));
    JsonIsPieces(t);
  }

  /** A quote-led key right behind the opening brace is found there, with the value behind it. */
  lemma {:induction false} OpensWithKey(json: string, k: string, tail: string, n: nat)
    requires k != "" && k[0] == '"' && json == "{" + (k + tail) && n == 1 + |k|
    ensures Find(json, k, 0) == Some(1) && n <= |json| && json[n..] == tail
  {
    assert json[1..n] == k;
    if At(json, k, 0) {
      FirstChar(json, k, 0);
    }
  }

  /** A number written as a string is read like the bare one. */
  lemma {:induction false} QuotedNumberIsRead(key: string, value: string, json: string)
    requires Clean(value) && value != "" && json == "{" + (NumberKey(key) + (" \"" + (value + "\"}")))
    ensures NumberToken(json, key) == Some(value)
  {
    var n := 1 + |NumberKey(key)|;
    OpensWithKey(json, NumberKey(key), " \"" + (value + "\"}"), n);
    BlanksInFront(json, n, n + 2, value);
    TokenRuns(json, n + 2, value);
    TokenFrom(json, key, 1, n, n + 2, n + 2 + |value|);
  }

  lemma {:induction false} BlanksInFront(json: string, n: nat, from: nat, value: string)
    requires n <= |json| && json[n..] == " \"" + (value + "\"}") && Clean(value) && value != "" && from == n + 2
    ensures SkipBlanks(json, n) == from && from + |value| < |json| && json[from..from + |value|] == value
    ensures Stop(json[from + |value|])
  {
    var tail := json[n..];
    assert json[n] == tail[0] && json[n + 1] == tail[1] && json[from] == tail[2] == value[0];
    assert json[from + |value|] == tail[2 + |value|] == '"';
    assert json[from..from + |value|] == tail[2..2 + |value|] == value;
    assert SkipBlanks(json, from) == from;
    assert SkipBlanks(json, n + 1) == from;
  }

  /** A string that never closes is read to the end. */
  lemma {:induction false} UnclosedStringIsRead(key: string, value: string, json: string)
    requires QuoteFree(value) && json == "{" + (StringKey(key) + value)
    ensures GetString(json, key) == value
  {
    var n := 1 + |StringKey(key)|;
    OpensWithKey(json, StringKey(key), value, n);
    var e := Find(json, "\"", n);
    if e.Some? {
      FirstChar(json, "\"", e.value);
    }
  }

  /** The symbol comes back as far as its first quote, so whole exactly when it has none. */
  lemma {:induction false} SymbolReadBack(t: Trade)
    ensures GetString(TradeToJson(t), "symbol") == t.symbol <==> QuoteFree(t.symbol)
  {
    var json, k := TradeToJson(t), StringKey("symbol");
    ReadStringsAreQuoteFree(json, "symbol");
    if QuoteFree(t.symbol) {
      var rest := "," + Field("price", t.price, Field("qty", t.qty, Field("side", Side(t), Ending(t))));
      var n := 1 + |k|;
      OpensWithKey(json, k, t.symbol + ("\"" + rest), n) by {
        QuoteComma(rest[1..], rest);
      }
      QuoteAfter(json, n, n + |t.symbol|, t.symbol, rest);
    }
  }

  /** A symbol with a quote comes back cut at its first one. */
  lemma {:induction false} QuotedSymbolIsCut(t: Trade, front: string, back: string)
    requires t.symbol == front + "\"" + back && QuoteFree(front)
    ensures GetString(TradeToJson(t), "symbol") == front
  {
    var json, k := TradeToJson(t), StringKey("symbol");
    var fields := Field("price", t.price, Field("qty", t.qty, Field("side", Side(t), Ending(t))));
    var n, rest := 1 + |k|, back + ("\"," + fields);
    CutSymbol(t.symbol, front, back, "\"," + fields);
    OpensWithKey(json, k, front + ("\"" + rest), n);
    QuoteAfter(json, n, n + |front|, front, rest);
  }

  lemma {:induction false} CutSymbol(symbol: string, front: string, back: string, more: string)
    requires symbol == front + "\"" + back
    ensures symbol + more == front + ("\"" + (back + more))
  {
    assert front + "\"" + back + more == front + ("\"" + (back + more));
  }

  lemma {:induction false} QuotedSymbolExample(t: Trade)
    requires t.symbol == "a\"b"
    ensures GetString(TradeToJson(t), "symbol") == "a"
  {
    QuotedSymbolIsCut(t, "a", "b");
  }

  lemma {:induction false} QuoteComma(fields: string, rest: string)
    requires rest == "," + fields
    ensures "\"," + fields == "\"" + rest
  {
  }

  lemma {:induction false} QuoteAfter(json: string, n: nat, e: nat, symbol: string, rest: string)
    requires n <= |json| && json[n..] == symbol + ("\"" + rest) && QuoteFree(symbol) && e == n + |symbol|
    ensures Find(json, "\"", n) == Some(e) && json[n..e] == symbol
  {
    assert json[e] == json[n..][|symbol|] == '"';
    assert json[e..e + 1] == "\"" && At(json, "\"", e);
    assert json[n..e] == json[n..][..|symbol|] == symbol;
    forall q: nat | n <= q < e
      ensures !At(json, "\"", q)
    {
      assert json[q] == symbol[q - n];
      if At(json, "\"", q) {
        FirstChar(json, "\"", q);
      }
    }
  }

  /** Everything trade_to_row() takes from the payload. */
  ghost predicate ReadsBack(t: Trade) {
    var json := TradeToJson(t);
    && GetString(json, "symbol") == t.symbol
    && NumberToken(json, "price") == Some(t.price)
    && NumberToken(json, "qty") == Some(t.qty)
    && NumberToken(json, "side") == Some(Side(t))
  }

  /** The warehouse reads every printed field back exactly when the symbol is quote-free (the printer
      does not escape it as section 7 of RFC 8259 asks) and the number tokens are clean. */
  lemma {:induction false} RoundTripExactly(t: Trade)
    ensures ReadsBack(t) <==> QuoteFree(t.symbol) && Clean(t.price) && Clean(t.qty)
  {
    SymbolReadBack(t);
    ReadTokensAreClean(TradeToJson(t), "price");
    ReadTokensAreClean(TradeToJson(t), "qty");
    if QuoteFree(t.symbol) && Clean(t.price) && Clean(t.qty) {
      PriceReadBack(t);
      QtyReadBack(t);
      SideReadBack(t);
    }
  }

  /** std::stod on the tokens of this trade. */
  predicate Converts(stod: Stod, t: Trade, price: real, qty: real) {
    && stod(t.price) == Some(price) && stod(t.qty) == Some(qty)
    && stod("1") == Some(1.0) && stod("2") == Some(2.0)
  }

  /** From feed to store: the row built from a printed trade with a quote-free symbol and clean tokens holds the
      trade's own symbol and numbers. */
  lemma {:induction false} PrintedTradeBecomesRow(t: Trade, channel: string, ts: int, stod: Stod, price: real,
                                                  qty: real)
    requires QuoteFree(t.symbol) && Clean(t.price) && Clean(t.qty) && Converts(stod, t, price, qty)
    ensures RowOf(channel, TradeToJson(t), ts, stod)
         == Some(Row(ts, "trade", [("channel", channel), ("symbol", t.symbol)],
                     [("price", price), ("qty", qty), ("side", if t.buy then 1.0 else 2.0)]))
  {
    RoundTripExactly(t);
  }
}
