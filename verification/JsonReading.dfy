/**
 What the parser makes of text the printers never write: white space and escape
 sequences (sections 2 and 7 of RFC 8259).
 */
module JsonReading {
  import opened Wrappers
  import opened Json
  import opened JsonRoundTrip

  /** The characters of a plain string: all but the ones section 7 of RFC 8259 wants escaped. */
  lemma PlainIff(s: string)
    ensures Plain(s) <==> '\"' !in s && '\\' !in s && forall c :: c in s ==> c as int >= 0x20
  {
    if '\"' !in s && '\\' !in s && forall c :: c in s ==> c as int >= 0x20 {
      forall i | 0 <= i < |s| ensures PlainChar(s[i]) {
        assert s[i] in s;
      }
    }
  }

  /** The compact text of one value of every kind, written out. */
  lemma CompactTextOfEveryKind(v: Value, w: Value, a: string, b: string)
    ensures Text(Null) == "null" && Text(Bool(true)) == "true" && Text(Bool(false)) == "false"
    ensures Text(Str(a)) == "\"" + a + "\"" && Text(Array([])) == "[]" && Text(Object([])) == "{}"
    ensures Text(Array([v, w])) == "[" + (Text(v) + "," + Text(w)) + "]"
    ensures Text(Object([Member(a, v), Member(b, w)]))
         == "{" + ("\"" + a + "\":" + Text(v) + "," + ("\"" + b + "\":" + Text(w))) + "}"
  {
    TwoItems(v, w);
    TwoMembers(Member(a, v), Member(b, w));
  }

  lemma TwoItems(v: Value, w: Value)
    ensures ItemsText([v, w]) == Text(v) + "," + Text(w)
  {
    assert [v, w][1..] == [w];
  }

  lemma TwoMembers(m: Member, n: Member)
    ensures MembersText([m, n]) == MemberText(m) + "," + MemberText(n)
  {
    assert [m, n][1..] == [n];
  }

  lemma DigitsAreDecimal(n: nat)
    requires n < 10
    ensures Digits(n) == ["0123456789"[n]] && DigitValue("0123456789"[n]) == n
    ensures IntText(-12) == "-12"
  {
    assert Digits(12) == Digits(1) + ['2'];
    assert IntText(-12) == "-" + Digits(12);
  }

  // ---------- White space ----------

  lemma SpaceIff(c: char)
    ensures IsSpace(c) <==> c in " \t\n\r"
  {
  }

  lemma {:induction false} SkipsAllSpace(space: string, s: string)
    requires forall c :: c in space ==> c in " \t\n\r"
    ensures SkipSpace(space + s) == SkipSpace(s)
  {
    if space == "" {
      assert space + s == s;
    } else {
      assert space[0] in space;
      SkipsAllSpace(space[1..], s);
      assert (space + s)[1..] == space[1..] + s;
    }
  }

  /** White space in front of a value does not matter. */
  lemma SpaceBeforeValue(space: string, s: string)
    requires forall c :: c in space ==> c in " \t\n\r"
    ensures ParseValue(space + s) == ParseValue(s)
  {
    SkipsAllSpace(space, s);
  }

  // ---------- What is no JSON ----------

  /** A number that starts with a zero ends with it. */
  lemma NoLeadingZeros(rest: string)
    ensures ParseNat("0" + rest) == Some(Parsed(0, rest))
  {
    assert ("0" + rest)[1..] == rest;
  }

  /** Behind the one value of a text only white space may follow. */
  lemma NothingBehindTheValue(v: Value, rest: string)
    requires PlainValue(v) && !v.Number?
    ensures ParseAll(Text(v) + rest) == if forall c :: c in rest ==> c in " \t\n\r" then Some(v) else None
  {
    ParseText(v, rest);
    if forall c :: c in rest ==> c in " \t\n\r" {
      SkipsAllSpace(rest, "");
      assert rest + "" == rest;
    } else {
      SomethingStays(rest);
    }
  }

  lemma {:induction false} SomethingStays(s: string)
    requires exists c :: c in s && c !in " \t\n\r"
    ensures SkipSpace(s) != ""
  {
    if IsSpace(s[0]) {
      assert s == [s[0]] + s[1..];
      SomethingStays(s[1..]);
    }
  }

  /** Behind an item comes a comma and another item, or the closing bracket. */
  lemma ItemsNeedSeparators(v: Value, rest: string)
    requires PlainValue(v) && !v.Number?
    requires SkipSpace(rest) == "" || SkipSpace(rest)[0] !in ",]"
    ensures ParseItems(Text(v) + rest) == None && ParseItems(Text(v) + ",]") == None
  {
    ParseText(v, rest);
    ParseText(v, ",]");
    assert ",]"[1..] == "]";
    assert ParseNumber("]") == None;
  }

  /** The same for members and the closing brace; and a member has a colon. */
  lemma MembersNeedSeparators(m: Member, rest: string)
    requires Plain(m.name) && PlainValue(m.value) && EndsNumber(rest)
    requires SkipSpace(rest) == "" || SkipSpace(rest)[0] !in ",}"
    ensures ParseMembers(MemberText(m) + rest) == None && ParseMembers(MemberText(m) + ",}") == None
  {
    ParseMemberText(m, rest);
    ParseMemberText(m, ",}");
    assert ",}"[1..] == "}";
  }

  lemma MemberNeedsColon(name: string, rest: string)
    requires Plain(name) && (SkipSpace(rest) == "" || SkipSpace(rest)[0] != ':')
    ensures ParseMember("\"" + (name + "\"" + rest)) == None
  {
    ParseStringOfPlain(name, rest);
    assert ("\"" + (name + "\"" + rest))[1..] == name + "\"" + rest;
  }

  // ---------- Escape sequences ----------

  const HEX := "0123456789abcdef"

  lemma HexDigits(k: nat)
    requires k < 16
    ensures HexValue(HEX[k]) == Some(k) && HexValue("0123456789ABCDEF"[k]) == Some(k)
  {
  }

  function HexText(a: nat, b: nat, c: nat, d: nat): (s: string)
    requires a < 16 && b < 16 && c < 16 && d < 16
    ensures |s| == 4
  {
    [HEX[a], HEX[b], HEX[c], HEX[d]]
  }

  lemma ParseHexText(a: nat, b: nat, c: nat, d: nat, rest: string)
    requires a < 16 && b < 16 && c < 16 && d < 16
    ensures ParseHex4(HexText(a, b, c, d) + rest) == Some(Parsed(((a * 16 + b) * 16 + c) * 16 + d, rest))
  {
    HexDigits(a);
    HexDigits(b);
    HexDigits(c);
    HexDigits(d);
    var s := HexText(a, b, c, d) + rest;
    assert s[0] == HEX[a] && s[1] == HEX[b] && s[2] == HEX[c] && s[3] == HEX[d];
    assert s[4..] == rest;
  }

  /** Four hexadecimal digits. */
  function Hex4(n: nat): (s: string)
    requires n < 0x1_0000
    ensures |s| == 4
  {
    HexText(n / 16 / 16 / 16, n / 16 / 16 % 16, n / 16 % 16, n % 16)
  }

  lemma ParseHex4OfHex4(n: nat, rest: string)
    requires n < 0x1_0000
    ensures ParseHex4(Hex4(n) + rest) == Some(Parsed(n, rest))
  {
    ParseHexText(n / 16 / 16 / 16, n / 16 / 16 % 16, n / 16 % 16, n % 16, rest);
  }

  function High(n: nat): (hi: nat)
    requires 0x1_0000 <= n < 0x11_0000
    ensures 0xD800 <= hi < 0xDC00
  {
    0xD800 + (n - 0x1_0000) / 0x400
  }

  function Low(n: nat): (lo: nat)
    requires 0x1_0000 <= n < 0x11_0000
    ensures 0xDC00 <= lo < 0xE000
  {
    0xDC00 + (n - 0x1_0000) % 0x400
  }

  /** A character as an escape with hexadecimal digits, above the basic plane as a surrogate pair. */
  function UnicodeEscape(c: char): string {
    var n := c as int;
    if n < 0x1_0000 then "\\u" + Hex4(n) else "\\u" + Hex4(High(n)) + ("\\u" + Hex4(Low(n)))
  }

  lemma AfterPrefix(hex: string, rest: string)
    ensures var s := "\\u" + hex + rest;
            s[0] == '\\' && s[1] == 'u' && s[2..] == hex + rest && ParseEscape(s[1..]) == ParseUnicode(hex + rest)
  {
    var s := "\\u" + hex + rest;
    assert s[1..][0] == 'u' && s[1..][1..] == hex + rest;
  }

  lemma ParseBasicEscape(c: char, rest: string)
    requires c as int < 0x1_0000
    ensures ParseUnicode(Hex4(c as int) + rest) == Some(Parsed(c, rest))
  {
    ParseHex4OfHex4(c as int, rest);
  }

  lemma ParsePair(s: string, tail: string, hi: nat, lo: nat, rest: string)
    requires ParseHex4(s) == Some(Parsed(hi, tail)) && |tail| >= 2 && "\\u" <= tail
    requires ParseHex4(tail[2..]) == Some(Parsed(lo, rest))
    requires 0xD800 <= hi < 0xDC00 && 0xDC00 <= lo < 0xE000
    ensures ParseUnicode(s) == Some(Parsed((0x1_0000 + (hi - 0xD800) * 0x400 + (lo - 0xDC00)) as char, rest))
  {
  }

  lemma ParseTwoHex4(hi: nat, lo: nat, c: char, rest: string)
    requires 0xD800 <= hi < 0xDC00 && 0xDC00 <= lo < 0xE000
    requires 0x1_0000 + (hi - 0xD800) * 0x400 + (lo - 0xDC00) == c as int
    ensures ParseUnicode(Hex4(hi) + ("\\u" + Hex4(lo) + rest)) == Some(Parsed(c, rest))
  {
    var tail := "\\u" + Hex4(lo) + rest;
    ParseHex4OfHex4(hi, tail);
    ParseHex4OfHex4(lo, rest);
    AfterPrefix(Hex4(lo), rest);
    assert tail[..2] == "\\u";
    ParsePair(Hex4(hi) + tail, tail, hi, lo, rest);
  }

  lemma ParseSurrogates(c: char, rest: string)
    requires c as int >= 0x1_0000
    ensures ParseUnicode(Hex4(High(c as int)) + ("\\u" + Hex4(Low(c as int)) + rest)) == Some(Parsed(c, rest))
  {
    PairIsCharacter(c as int);
    ParseTwoHex4(High(c as int), Low(c as int), c, rest);
  }

  lemma PairIsCharacter(n: nat)
    requires 0x1_0000 <= n < 0x11_0000
    ensures 0x1_0000 + (High(n) - 0xD800) * 0x400 + (Low(n) - 0xDC00) == n
  {
  }

  /** Every character can be written that way, and is read back. */
  lemma ParseUnicodeEscape(c: char, rest: string)
    ensures var s := UnicodeEscape(c) + rest;
            |s| > 0 && s[0] == '\\' && ParseEscape(s[1..]) == Some(Parsed(c, rest))
  {
    if c as int < 0x1_0000 {
      ParseBasicEscape(c, rest);
      AfterPrefix(Hex4(c as int), rest);
    } else {
      PairEscape(c, rest);
    }
  }

  lemma PairEscape(c: char, rest: string)
    requires c as int >= 0x1_0000
    ensures var s := UnicodeEscape(c) + rest;
            |s| > 0 && s[0] == '\\' && ParseEscape(s[1..]) == Some(Parsed(c, rest))
  {
    var hi, pair := Hex4(High(c as int)), "\\u" + Hex4(Low(c as int));
    ParseSurrogates(c, rest);
    AfterPrefix(hi, pair + rest);
    Regroup("\\u" + hi, pair, rest);
    assert UnicodeEscape(c) + rest == "\\u" + hi + (pair + rest);
  }

  /** The escapes of section 7: short forms where there are some, and no character that must not stand alone. */
  function Escape(c: char): (s: string)
    ensures |s| > 0
  {
    if c == '\"' then "\\\""
    else if c == '\\' then "\\\\"
    else if c as int == 8 then "\\b"
    else if c as int == 9 then "\\t"
    else if c as int == 10 then "\\n"
    else if c as int == 12 then "\\f"
    else if c as int == 13 then "\\r"
    else if c as int < 0x20 then "\\u" + Hex4(c as int)
    else [c]
  }

  function Escaped(s: string): string {
    if s == "" then "" else Escape(s[0]) + Escaped(s[1..])
  }

  lemma ParseEscapeOfEscape(c: char, s: string)
    requires Escape(c) != [c]
    ensures var t := Escape(c) + s; |t| > 0 && t[0] == '\\' && ParseEscape(t[1..]) == Some(Parsed(c, s))
  {
    var t := Escape(c) + s;
    if |Escape(c)| == 2 {
      assert t[1] == Escape(c)[1] && t[1..][1..] == s;
    } else {
      ParseUnicodeEscape(c, s);
    }
  }

  lemma ParseOneEscaped(c: char, s: string)
    requires ParseString(s).Some?
    ensures var p := ParseString(s).value;
            ParseString(Escape(c) + s) == Some(Parsed([c] + p.value, p.rest))
  {
    if Escape(c) == [c] {
      assert ([c] + s)[1..] == s;
    } else {
      ParseEscapeOfEscape(c, s);
    }
  }

  /** A string printed with its escapes is read back, whatever it holds: escaping is all the printers lack. */
  lemma {:induction false} ParseStringOfEscaped(s: string, rest: string)
    ensures ParseString(Escaped(s) + ("\"" + rest)) == Some(Parsed(s, rest))
  {
    if s == "" {
      assert ("\"" + rest)[1..] == rest;
      assert Escaped(s) + ("\"" + rest) == "\"" + rest;
    } else {
      ParseStringOfEscaped(s[1..], rest);
      ParseOneEscaped(s[0], Escaped(s[1..]) + ("\"" + rest));
      Regroup(Escape(s[0]), Escaped(s[1..]), "\"" + rest);
      assert s == [s[0]] + s[1..];
    }
  }

  /** A solidus may be escaped too. */
  lemma ParseEscapedSolidus(rest: string)
    ensures ParseEscape("/" + rest) == Some(Parsed('/', rest))
  {
    assert ("/" + rest)[1..] == rest;
  }
}
