// claw/claw_json_write.c: what the writer prints, as functions, and an RFC 8259
// parser that undoes it.

module Json {
  import opened CStrings

  // Numbers the integral branch prints: those a double holds exactly.
  type JsonInt = n: int | -9007199254740992 <= n <= 9007199254740992

  // A cJSON node. valuestring and string may be NULL; children are a list linked
  // through `next`, shared by arrays and objects.
  datatype Item =
    | Null | False | True
    | Number(n: JsonInt)
    | Str(s: Option<string>)
    | Array(child: Items)
    | Object(child: Items)
    | Other
  datatype Items = End | Next(key: Option<string>, item: Item, next: Items)

  const BACKSPACE := '\U{8}'
  const FORMFEED := '\U{C}'

  // ---- printing ----

  function HexDigit(d: nat): char
    requires d < 16
  {
    "0123456789abcdef"[d]
  }

  function Escape(c: char): string
  {
    if c == '"' then "\\\""
    else if c == '\\' then "\\\\"
    else if c == BACKSPACE then "\\b"
    else if c == FORMFEED then "\\f"
    else if c == '\n' then "\\n"
    else if c == '\r' then "\\r"
    else if c == '\t' then "\\t"
    else if c < ' ' then "\\u00" + [HexDigit(c as nat / 16), HexDigit(c as nat % 16)]
    else [c]
  }

  function EscapeAll(s: string): string
  {
    if s == "" then "" else Escape(s[0]) + EscapeAll(s[1..])
  }

  // A C string, or "" for NULL.
  function Text(s: Option<string>): string
  {
    if s.None? then "" else Upto0(s.value)
  }

  function EncString(s: Option<string>): string
  {
    "\"" + EscapeAll(Text(s)) + "\""
  }

  function Digits(n: nat): (s: string)
    ensures s != ""
  {
    if n < 10 then [HexDigit(n)] else Digits(n / 10) + [HexDigit(n % 10)]
  }

  function EncNumber(n: int): string
  {
    if n < 0 then "-" + Digits(-n) else Digits(n)
  }

  function Enc(i: Item): string
  {
    match i
    case Null => "null"
    case False => "false"
    case True => "true"
    case Number(n) => EncNumber(n)
    case Str(s) => EncString(s)
    case Array(c) => "[" + EncElements(c) + "]"
    case Object(c) => "{" + EncMembers(c) + "}"
    case Other => "null"
  }

  function EncElements(c: Items): string
  {
    match c
    case End => ""
    case Next(_, i, n) => Enc(i) + if n.End? then "" else "," + EncElements(n)
  }

  function EncMembers(c: Items): string
  {
    match c
    case End => ""
    case Next(k, i, n) => EncString(k) + ":" + Enc(i) + if n.End? then "" else "," + EncMembers(n)
  }

  // ---- parsing (RFC 8259), numbers without fraction and exponent ----

  datatype Parsed<+T> = Fail | Ok(value: T, rest: string)

  predicate IsWs(c: char) { c == ' ' || c == '\t' || c == '\n' || c == '\r' }

  function SkipWs(s: string): (r: string)
    ensures |r| <= |s|
  {
    if s != "" && IsWs(s[0]) then SkipWs(s[1..]) else s
  }

  function HexValue(c: char): Option<nat>
  {
    if '0' <= c <= '9' then Some(c as nat - '0' as nat)
    else if 'a' <= c <= 'f' then Some(c as nat - 'a' as nat + 10)
    else if 'A' <= c <= 'F' then Some(c as nat - 'A' as nat + 10)
    else None
  }

  // Four hexadecimal digits at the start of s.
  function Hex4(s: string): (r: Option<nat>)
    ensures r.Some? ==> |s| >= 4 && r.value < 0x10000
  {
    if |s| < 4 then None
    else
      var a, b, c, d := HexValue(s[0]), HexValue(s[1]), HexValue(s[2]), HexValue(s[3]);
      if a.None? || b.None? || c.None? || d.None? || a.value > 15 || b.value > 15 || c.value > 15 || d.value > 15 then None
      else Some(a.value * 4096 + b.value * 256 + c.value * 16 + d.value)
  }

  // The UTF-8 bytes of a code point.
  function Utf8(cp: nat): string
    requires cp < 0x110000
  {
    if cp < 0x80 then [cp as char]
    else if cp < 0x800 then [(0xC0 + cp / 64) as char, (0x80 + cp % 64) as char]
    else if cp < 0x10000 then
      [(0xE0 + cp / 4096) as char, (0x80 + cp / 64 % 64) as char, (0x80 + cp % 64) as char]
    else
      [(0xF0 + cp / 262144) as char, (0x80 + cp / 4096 % 64) as char,
       (0x80 + cp / 64 % 64) as char, (0x80 + cp % 64) as char]
  }

  // A \u escape, the four digits at the start of s; a surrogate needs its pair.
  function ParseUnicode(s: string): (r: Parsed<string>)
    ensures r.Ok? ==> |r.rest| < |s|
  {
    var h := Hex4(s);
    if h.None? || 0xDC00 <= h.value <= 0xDFFF then Fail
    else if 0xD800 <= h.value <= 0xDBFF then
      if |s| >= 10 && s[4..6] == "\\u" then
        var l := Hex4(s[6..]);
        if l.Some? && 0xDC00 <= l.value <= 0xDFFF
        then Ok(Utf8(0x10000 + (h.value - 0xD800) * 0x400 + (l.value - 0xDC00)), s[10..])
        else Fail
      else Fail
    else Ok(Utf8(h.value), s[4..])
  }

  // One escape, s being what follows the backslash.
  function ParseEscape(s: string): (r: Parsed<string>)
    ensures r.Ok? ==> |r.rest| < |s|
  {
    if s == "" then Fail
    else match s[0]
      case '"' => Ok("\"", s[1..])
      case '\\' => Ok("\\", s[1..])
      case '/' => Ok("/", s[1..])
      case 'b' => Ok([BACKSPACE], s[1..])
      case 'f' => Ok([FORMFEED], s[1..])
      case 'n' => Ok("\n", s[1..])
      case 'r' => Ok("\r", s[1..])
      case 't' => Ok("\t", s[1..])
      case 'u' => ParseUnicode(s[1..])
      case _ => Fail
  }

  // The characters of a string up to and with its closing quote.
  function ParseChars(s: string): (r: Parsed<string>)
    ensures r.Ok? ==> |r.rest| < |s|
    decreases |s|
  {
    if s == "" || s[0] < ' ' then Fail
    else if s[0] == '"' then Ok("", s[1..])
    else if s[0] == '\\' then
      var e := ParseEscape(s[1..]);
      if e.Fail? then Fail
      else
        var r := ParseChars(e.rest);
        if r.Fail? then Fail else Ok(e.value + r.value, r.rest)
    else
      var r := ParseChars(s[1..]);
      if r.Fail? then Fail else Ok([s[0]] + r.value, r.rest)
  }

  function ParseString(s: string): (r: Parsed<string>)
    ensures r.Ok? ==> |r.rest| < |s|
  {
    if s != "" && s[0] == '"' then ParseChars(s[1..]) else Fail
  }

  predicate IsDigit(c: char) { '0' <= c <= '9' }

  // The leading digits of s, and their value after those already read.
  function ParseDigits(s: string, acc: nat): (r: (nat, string))
    ensures |r.1| <= |s|
  {
    if s != "" && IsDigit(s[0])
    then ParseDigits(s[1..], acc * 10 + (s[0] as nat - '0' as nat))
    else (acc, s)
  }

  // Ends a number without fraction or exponent.
  predicate Stops(rest: string)
  {
    rest == "" || !(IsDigit(rest[0]) || rest[0] == '.' || rest[0] == 'e' || rest[0] == 'E')
  }

  // A zero stands alone; any other number starts with a digit from 1 to 9.
  function ParseNat(s: string): (r: Parsed<nat>)
    ensures r.Ok? ==> |r.rest| < |s|
  {
    if s == "" || !IsDigit(s[0]) then Fail
    else
      var (n, rest) := if s[0] == '0' then (0, s[1..]) else ParseDigits(s[1..], s[0] as nat - '0' as nat);
      if Stops(rest) then Ok(n, rest) else Fail
  }

  function ParseNumber(s: string): (r: Parsed<Item>)
    ensures r.Ok? ==> |r.rest| < |s|
  {
    var neg := s != "" && s[0] == '-';
    var p := ParseNat(if neg then s[1..] else s);
    if p.Fail? || p.value > 9007199254740992 then Fail
    else
      var v: int := p.value;
      Ok(Number(if neg then -v else v), p.rest)
  }

  function ParseValue(s0: string): (r: Parsed<Item>)
    ensures r.Ok? ==> |r.rest| < |s0|
    decreases |s0|, 1
  {
    var s := SkipWs(s0);
    if s == "" then Fail
    else if "null" <= s then Ok(Null, s[4..])
    else if "true" <= s then Ok(True, s[4..])
    else if "false" <= s then Ok(False, s[5..])
    else if s[0] == '"' then
      var p := ParseString(s);
      if p.Fail? then Fail else Ok(Str(Some(p.value)), p.rest)
    else if s[0] == '[' then
      var t := SkipWs(s[1..]);
      if t != "" && t[0] == ']' then Ok(Array(End), t[1..])
      else
        var p := ParseElements(s[1..]);
        if p.Fail? then Fail else Ok(Array(p.value), p.rest)
    else if s[0] == '{' then
      var t := SkipWs(s[1..]);
      if t != "" && t[0] == '}' then Ok(Object(End), t[1..])
      else
        var p := ParseMembers(s[1..]);
        if p.Fail? then Fail else Ok(Object(p.value), p.rest)
    else ParseNumber(s)
  }

  // One element or more, and the closing bracket.
  function ParseElements(s: string): (r: Parsed<Items>)
    ensures r.Ok? ==> |r.rest| < |s|
    decreases |s|, 2
  {
    var v := ParseValue(s);
    if v.Fail? then Fail
    else
      var t := SkipWs(v.rest);
      if t == "" then Fail
      else if t[0] == ']' then Ok(Next(None, v.value, End), t[1..])
      else if t[0] == ',' then
        var p := ParseElements(t[1..]);
        if p.Fail? then Fail else Ok(Next(None, v.value, p.value), p.rest)
      else Fail
  }

  // One member or more, and the closing brace.
  function ParseMembers(s: string): (r: Parsed<Items>)
    ensures r.Ok? ==> |r.rest| < |s|
    decreases |s|, 2
  {
    var k := ParseString(SkipWs(s));
    if k.Fail? then Fail
    else
      var u := SkipWs(k.rest);
      if u == "" || u[0] != ':' then Fail
      else
        var v := ParseValue(u[1..]);
        if v.Fail? then Fail
        else
          var t := SkipWs(v.rest);
          if t == "" then Fail
          else if t[0] == '}' then Ok(Next(Some(k.value), v.value, End), t[1..])
          else if t[0] == ',' then
            var p := ParseMembers(t[1..]);
            if p.Fail? then Fail else Ok(Next(Some(k.value), v.value, p.value), p.rest)
          else Fail
  }

  // ---- what reading back gives ----

  // The same tree with every NULL string read as "", an unknown node as null, and
  // no keys on array elements.
  function Norm(i: Item): Item
  {
    match i
    case Str(s) => Str(Some(Text(s)))
    case Array(c) => Array(NormElements(c))
    case Object(c) => Object(NormMembers(c))
    case Other => Null
    case _ => i
  }

  function NormElements(c: Items): Items
  {
    match c
    case End => End
    case Next(_, i, n) => Next(None, Norm(i), NormElements(n))
  }

  function NormMembers(c: Items): Items
  {
    match c
    case End => End
    case Next(k, i, n) => Next(Some(Text(k)), Norm(i), NormMembers(n))
  }
}
