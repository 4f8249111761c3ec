/**
 JSON values, their compact text without any escaping (which is what the
 hand-written printers of this repository produce), and a parser for the
 grammar of RFC 8259.  Numbers are the integers of section 6; a fraction or an
 exponent is not read.
 */
module Json {
  import opened Wrappers

  datatype Value =
    | Null
    | Bool(b: bool)
    | Number(n: int)
    | Str(s: string)
    | Array(items: seq<Value>)
    | Object(members: seq<Member>)

  datatype Member = Member(name: string, value: Value)

  /** What a parser found at the front of a text, and the text behind it. */
  datatype Parsed<+T> = Parsed(value: T, rest: string)

  // ---------- Compact text ----------

  function DigitChar(d: nat): char
    requires d < 10
  {
    '0' + d as char
  }

  function Digits(n: nat): (s: string)
    ensures |s| > 0
  {
    if n < 10 then [DigitChar(n)] else Digits(n / 10) + [DigitChar(n % 10)]
  }

  function IntText(n: int): string {
    if n < 0 then "-" + Digits(-n) else Digits(n)
  }

  function Text(v: Value): string
    decreases v, 1
  {
    match v
    case Null => "null"
    case Bool(b) => if b then "true" else "false"
    case Number(n) => IntText(n)
    case Str(s) => "\"" + s + "\""
    case Array(items) => "[" + ItemsText(items) + "]"
    case Object(members) => "{" + MembersText(members) + "}"
  }

  function ItemsText(items: seq<Value>): string
    decreases items, 0
  {
    if items == [] then ""
    else if |items| == 1 then Text(items[0])
    else Text(items[0]) + "," + ItemsText(items[1..])
  }

  function MemberText(m: Member): string
    decreases m, 1
  {
    "\"" + m.name + "\":" + Text(m.value)
  }

  function MembersText(members: seq<Member>): string
    decreases members, 0
  {
    if members == [] then ""
    else if |members| == 1 then MemberText(members[0])
    else MemberText(members[0]) + "," + MembersText(members[1..])
  }

  // ---------- Strings that need no escaping (section 7 of RFC 8259) ----------

  predicate PlainChar(c: char) {
    c != '\"' && c != '\\' && c >= ' '
  }

  predicate Plain(s: string) {
    forall i :: 0 <= i < |s| ==> PlainChar(s[i])
  }

  predicate PlainValue(v: Value)
    decreases v, 1
  {
    match v
    case Str(s) => Plain(s)
    case Array(items) => PlainItems(items)
    case Object(members) => PlainMembers(members)
    case _ => true
  }

  predicate PlainItems(items: seq<Value>)
    decreases items, 0
  {
    items == [] || (PlainValue(items[0]) && PlainItems(items[1..]))
  }

  predicate PlainMembers(members: seq<Member>)
    decreases members, 0
  {
    members == [] ||
    (Plain(members[0].name) && PlainValue(members[0].value) && PlainMembers(members[1..]))
  }

  // ---------- The parser ----------

  predicate IsSpace(c: char) {
    c == ' ' || c == '\t' || c == '\n' || c == '\r'
  }

  function SkipSpace(s: string): (t: string)
    ensures |t| <= |s|
    ensures t != "" ==> !IsSpace(t[0])
    ensures s != "" && !IsSpace(s[0]) ==> t == s
  {
    if s != "" && IsSpace(s[0]) then SkipSpace(s[1..]) else s
  }

  /** Skips white space and then the given character. */
  function Expect(s: string, c: char): (r: Option<string>)
    ensures r.Some? ==> |r.value| < |s|
  {
    var t := SkipSpace(s);
    if t != "" && t[0] == c then Some(t[1..]) else None
  }

  function Literal(s: string, word: string, v: Value): (r: Option<Parsed<Value>>)
    requires |word| > 0
    ensures r.Some? ==> r.value.value == v && |r.value.rest| + |word| == |s|
  {
    if word <= s then Some(Parsed(v, s[|word|..])) else None
  }

  predicate IsDigit(c: char) {
    '0' <= c <= '9'
  }

  function DigitValue(c: char): (d: nat)
    requires IsDigit(c)
    ensures d < 10
  {
    (c - '0') as nat
  }

  /** The longest run of digits at the front, read on from the value `acc`. */
  function ParseDigits(s: string, acc: nat): (r: Parsed<nat>)
    ensures |r.rest| <= |s|
    ensures s != "" && IsDigit(s[0]) ==> |r.rest| < |s|
  {
    if s != "" && IsDigit(s[0]) then ParseDigits(s[1..], 10 * acc + DigitValue(s[0])) else Parsed(acc, s)
  }

  /** An unsigned integer: a single zero, or digits that do not start with a zero. */
  function ParseNat(s: string): (r: Option<Parsed<nat>>)
    ensures r.Some? ==> |r.value.rest| < |s|
  {
    if s == "" || !IsDigit(s[0]) then None
    else if s[0] == '0' then Some(Parsed(0, s[1..]))
    else Some(ParseDigits(s, 0))
  }

  function ParseNumber(s: string): (r: Option<Parsed<Value>>)
    ensures r.Some? ==> |r.value.rest| < |s|
  {
    if s != "" && s[0] == '-' then
      var p :- ParseNat(s[1..]);
      Some(Parsed(Number(-(p.value as int)), p.rest))
    else
      var p :- ParseNat(s);
      Some(Parsed(Number(p.value), p.rest))
  }

  function HexValue(c: char): (r: Option<nat>)
    ensures r.Some? ==> r.value < 16
  {
    if IsDigit(c) then Some((c - '0') as nat)
    else if 'a' <= c <= 'f' then Some((c - 'a') as nat + 10)
    else if 'A' <= c <= 'F' then Some((c - 'A') as nat + 10)
    else None
  }

  function ParseHex4(s: string): (r: Option<Parsed<nat>>)
    ensures r.Some? ==> r.value.value < 0x1_0000 && |r.value.rest| + 4 == |s|
  {
    if |s| < 4 then None
    else
      var a :- HexValue(s[0]);
      var b :- HexValue(s[1]);
      var c :- HexValue(s[2]);
      var d :- HexValue(s[3]);
      Some(Parsed(((a * 16 + b) * 16 + c) * 16 + d, s[4..]))
  }

  /** The character an escape sequence stands for, given the text behind its reverse solidus. */
  function ParseEscape(s: string): (r: Option<Parsed<char>>)
    ensures r.Some? ==> |r.value.rest| < |s|
  {
    if s == "" then None
    else match s[0]
      case '\"' => Some(Parsed('\"', s[1..]))
      case '\\' => Some(Parsed('\\', s[1..]))
      case '/' => Some(Parsed('/', s[1..]))
      case 'b' => Some(Parsed(8 as char, s[1..]))
      case 'f' => Some(Parsed(12 as char, s[1..]))
      case 'n' => Some(Parsed('\n', s[1..]))
      case 'r' => Some(Parsed('\r', s[1..]))
      case 't' => Some(Parsed('\t', s[1..]))
      case 'u' => ParseUnicode(s[1..])
      case _ => None
  }

  /** Four hexadecimal digits, or a surrogate pair written as two escapes. */
  function ParseUnicode(s: string): (r: Option<Parsed<char>>)
    ensures r.Some? ==> |r.value.rest| < |s|
  {
    var hi :- ParseHex4(s);
    if hi.value < 0xD800 || 0xE000 <= hi.value then Some(Parsed(hi.value as char, hi.rest))
    else if hi.value < 0xDC00 && "\\u" <= hi.rest then
      var lo :- ParseHex4(hi.rest[2..]);
      if 0xDC00 <= lo.value < 0xE000 then
        Some(Parsed((0x1_0000 + (hi.value - 0xD800) * 0x400 + (lo.value - 0xDC00)) as char, lo.rest))
      else None
    else None
  }

  /** The rest of a string literal, behind its opening quotation mark. */
  function ParseString(s: string): (r: Option<Parsed<string>>)
    ensures r.Some? ==> |r.value.rest| < |s|
    decreases |s|
  {
    if s == "" then None
    else if s[0] == '\"' then Some(Parsed("", s[1..]))
    else if s[0] == '\\' then
      var c :- ParseEscape(s[1..]);
      var p :- ParseString(c.rest);
      Some(Parsed([c.value] + p.value, p.rest))
    else if s[0] < ' ' then None
    else
      var p :- ParseString(s[1..]);
      Some(Parsed([s[0]] + p.value, p.rest))
  }

  function ParseValue(s: string): (r: Option<Parsed<Value>>)
    ensures r.Some? ==> |r.value.rest| < |s|
    decreases |s|, 2
  {
    var t := SkipSpace(s);
    if t == "" then None
    else if t[0] == '\"' then
      var p :- ParseString(t[1..]);
      Some(Parsed(Str(p.value), p.rest))
    else if t[0] == '[' then
      var u := SkipSpace(t[1..]);
      if u != "" && u[0] == ']' then Some(Parsed(Array([]), u[1..]))
      else
        var p :- ParseItems(t[1..]);
        Some(Parsed(Array(p.value), p.rest))
    else if t[0] == '{' then
      var u := SkipSpace(t[1..]);
      if u != "" && u[0] == '}' then Some(Parsed(Object([]), u[1..]))
      else
        var p :- ParseMembers(t[1..]);
        Some(Parsed(Object(p.value), p.rest))
    else if t[0] == 'n' then Literal(t, "null", Null)
    else if t[0] == 't' then Literal(t, "true", Bool(true))
    else if t[0] == 'f' then Literal(t, "false", Bool(false))
    else ParseNumber(t)
  }

  /** One or more values separated by commas, and the closing bracket. */
  function ParseItems(s: string): (r: Option<Parsed<seq<Value>>>)
    ensures r.Some? ==> |r.value.rest| < |s| && |r.value.value| > 0
    decreases |s|, 3
  {
    var first :- ParseValue(s);
    var close := Expect(first.rest, ']');
    if close.Some? then Some(Parsed([first.value], close.value))
    else
      var more :- Expect(first.rest, ',');
      var tail :- ParseItems(more);
      Some(Parsed([first.value] + tail.value, tail.rest))
  }

  function ParseMember(s: string): (r: Option<Parsed<Member>>)
    ensures r.Some? ==> |r.value.rest| < |s|
    decreases |s|, 3
  {
    var open :- Expect(s, '\"');
    var name :- ParseString(open);
    var colon :- Expect(name.rest, ':');
    var value :- ParseValue(colon);
    Some(Parsed(Member(name.value, value.value), value.rest))
  }

  /** One or more members separated by commas, and the closing brace. */
  function ParseMembers(s: string): (r: Option<Parsed<seq<Member>>>)
    ensures r.Some? ==> |r.value.rest| < |s| && |r.value.value| > 0
    decreases |s|, 4
  {
    var first :- ParseMember(s);
    var close := Expect(first.rest, '}');
    if close.Some? then Some(Parsed([first.value], close.value))
    else
      var more :- Expect(first.rest, ',');
      var tail :- ParseMembers(more);
      Some(Parsed([first.value] + tail.value, tail.rest))
  }
}
