/** `JSON.stringify` and `JSON.parse` for the stored user record
    `{"id":…,"email":…,"name":…}`. Serialising escapes exactly what the
    JSON grammar requires; parsing accepts that canonical layout. */
module Json {
  import opened Types

  function HexDigit(n: int): char
    requires 0 <= n < 16
  {
    if n < 10 then ('0' as int + n) as char else ('a' as int + n - 10) as char
  }

  function HexValue(c: char): Option<int> {
    if '0' <= c <= '9' then Some(c as int - '0' as int)
    else if 'a' <= c <= 'f' then Some(c as int - 'a' as int + 10)
    else if 'A' <= c <= 'F' then Some(c as int - 'A' as int + 10)
    else None
  }

  /** One code point inside a JSON string literal. */
  function EscapeChar(c: char): string {
    if c == '"' then "\\\""
    else if c == '\\' then "\\\\"
    else if c == '\U{8}' then "\\b"
    else if c == '\U{C}' then "\\f"
    else if c == '\n' then "\\n"
    else if c == '\r' then "\\r"
    else if c == '\t' then "\\t"
    else if c < ' ' then "\\u00" + [HexDigit(c as int / 16), HexDigit(c as int % 16)]
    else [c]
  }

  function EscapeString(s: string): string {
    if s == [] then [] else EscapeChar(s[0]) + EscapeString(s[1..])
  }

  function Quote(s: string): string {
    "\"" + EscapeString(s) + "\""
  }

  /** `JSON.stringify(user)` for a record built as `{ id, email, name }`. */
  function Stringify(u: User): string {
    "{\"id\":" + (Quote(u.id) + (",\"email\":" + (Quote(u.email) + (",\"name\":" + (Quote(u.name) + "}")))))
  }

  /** The code point an escape sequence (after its backslash) stands for,
      and how many characters the sequence takes. */
  function DecodeEscape(t: string): (r: Option<(char, nat)>)
    ensures r.Some? ==> 1 <= r.value.1 <= |t|
  {
    if t == [] then None
    else if t[0] == '"' then Some(('"', 1))
    else if t[0] == '\\' then Some(('\\', 1))
    else if t[0] == '/' then Some(('/', 1))
    else if t[0] == 'b' then Some(('\U{8}', 1))
    else if t[0] == 'f' then Some(('\U{C}', 1))
    else if t[0] == 'n' then Some(('\n', 1))
    else if t[0] == 'r' then Some(('\r', 1))
    else if t[0] == 't' then Some(('\t', 1))
    else if t[0] == 'u' && |t| >= 5 then
      match (HexValue(t[1]), HexValue(t[2]), HexValue(t[3]), HexValue(t[4]))
      case (Some(a), Some(b), Some(c), Some(d)) =>
        var code := ((a * 16 + b) * 16 + c) * 16 + d;
        if 0 <= code < 0xD800 || 0xE000 <= code < 0x10000 then Some((code as char, 5)) else None
      case _ => None
    else None
  }

  function Prepend(c: char, r: Option<(string, string)>): Option<(string, string)> {
    match r
    case None => None
    case Some((v, rest)) => Some(([c] + v, rest))
  }

  /** The characters of a string literal after its opening quote, up to and
      including the closing quote: the decoded value and what follows. */
  function ParseStringBody(s: string): Option<(string, string)>
    decreases |s|
  {
    if s == [] then None
    else if s[0] == '"' then Some(("", s[1..]))
    else if s[0] == '\\' then
      match DecodeEscape(s[1..])
      case None => None
      case Some((c, n)) => Prepend(c, ParseStringBody(s[1 + n..]))
    else if s[0] < ' ' then None
    else Prepend(s[0], ParseStringBody(s[1..]))
  }

  function Expect(lit: string, s: string): Option<string> {
    if |lit| <= |s| && s[..|lit|] == lit then Some(s[|lit|..]) else None
  }

  function ParseString(s: string): Option<(string, string)> {
    match Expect("\"", s)
    case None => None
    case Some(body) => ParseStringBody(body)
  }

  /** `JSON.parse` of a stored user record; `None` where it would throw or
      where the text is not in the layout `Stringify` writes. */
  function ParseUser(s: string): Option<User> {
    match Expect("{\"id\":", s)
    case None => None
    case Some(s1) =>
      match ParseString(s1)
      case None => None
      case Some((id, s2)) =>
        match Expect(",\"email\":", s2)
        case None => None
        case Some(s3) =>
          match ParseString(s3)
          case None => None
          case Some((email, s4)) =>
            match Expect(",\"name\":", s4)
            case None => None
            case Some(s5) =>
              match ParseString(s5)
              case None => None
              case Some((name, s6)) =>
                if s6 == "}" then Some(User(id, email, name)) else None
  }

  // ---------------------------------------------------------------------
  // Parsing what was serialised gives back the user
  // ---------------------------------------------------------------------

  lemma HexRoundTrip(n: int)
    requires 0 <= n < 16
    ensures HexValue(HexDigit(n)) == Some(n)
  {
  }

  lemma EscapeCharDecodes(c: char, rest: string)
    ensures ParseStringBody(EscapeChar(c) + rest) == Prepend(c, ParseStringBody(rest))
  {
    var e := EscapeChar(c);
    var s := e + rest;
    if c == '"' || c == '\\' || c == '\U{8}' || c == '\U{C}' || c == '\n' || c == '\r' || c == '\t' {
      assert s[0] == '\\' && s[1] == e[1] && s[2..] == rest;
      assert DecodeEscape(s[1..]) == Some((c, 1));
    } else if c < ' ' {
      var hi, lo := c as int / 16, c as int % 16;
      assert hi == 0 || hi == 1;
      HexRoundTrip(hi);
      HexRoundTrip(lo);
      assert s[0] == '\\' && s[1] == 'u' && s[2] == '0' && s[3] == '0';
      assert s[4] == HexDigit(hi) && s[5] == HexDigit(lo) && s[6..] == rest;
      var t := s[1..];
      assert t[1] == '0' && t[2] == '0' && t[3] == HexDigit(hi) && t[4] == HexDigit(lo);
      assert DecodeEscape(t) == Some((c, 5));
    } else {
      assert s[0] == c && s[1..] == rest;
    }
  }

  /** The escaped text followed by a closing quote decodes to the original. */
  lemma {:induction false} EscapeStringDecodes(x: string, rest: string)
    ensures ParseStringBody(EscapeString(x) + "\"" + rest) == Some((x, rest))
  {
    if x == [] {
      assert EscapeString(x) + "\"" + rest == "\"" + rest;
    } else {
      var tail := EscapeString(x[1..]) + "\"" + rest;
      assert EscapeString(x) + "\"" + rest == EscapeChar(x[0]) + tail;
      EscapeCharDecodes(x[0], tail);
      EscapeStringDecodes(x[1..], rest);
      assert [x[0]] + x[1..] == x;
    }
  }

  lemma ExpectLiteral(lit: string, rest: string)
    ensures Expect(lit, lit + rest) == Some(rest)
  {
    assert (lit + rest)[..|lit|] == lit;
  }

  lemma QuoteParses(x: string, rest: string)
    ensures ParseString(Quote(x) + rest) == Some((x, rest))
  {
    var body := EscapeString(x) + "\"" + rest;
    assert Quote(x) + rest == "\"" + body;
    ExpectLiteral("\"", body);
    EscapeStringDecodes(x, rest);
  }

  /** What `Stringify` writes, `ParseUser` reads back unchanged. */
  lemma ParseStringify(u: User)
    ensures ParseUser(Stringify(u)) == Some(u)
  {
    var t6 := "}";
    var t5 := Quote(u.name) + t6;
    var t4 := ",\"name\":" + t5;
    var t3 := Quote(u.email) + t4;
    var t2 := ",\"email\":" + t3;
    var t1 := Quote(u.id) + t2;
    assert Stringify(u) == "{\"id\":" + t1;
    ExpectLiteral("{\"id\":", t1);
    QuoteParses(u.id, t2);
    ExpectLiteral(",\"email\":", t3);
    QuoteParses(u.email, t4);
    ExpectLiteral(",\"name\":", t5);
    QuoteParses(u.name, t6);
  }
}
