/** The parser undoes the compact text, and the compact text of a value is the shortest text that parses to it. */
module JsonRoundTrip {
  import opened Wrappers
  import opened Json

  // ---------- Reading a number back ----------

  /** Text behind a number must not continue it. */
  predicate EndsNumber(rest: string) {
    rest == "" || !IsDigit(rest[0])
  }

  lemma {:induction false} ParseDigitsOfDigits(n: nat, rest: string)
    ensures ParseDigits(Digits(n) + rest, 0) == ParseDigits(rest, n)
  {
    var last := [DigitChar(n % 10)];
    ParseOneDigit(n % 10, rest, n / 10);
    if n >= 10 {
      ParseDigitsOfDigits(n / 10, last + rest);
      Regroup(Digits(n / 10), last, rest);
    }
  }

  lemma ParseOneDigit(d: nat, rest: string, acc: nat)
    requires d < 10
    ensures ParseDigits([DigitChar(d)] + rest, acc) == ParseDigits(rest, 10 * acc + d)
  {
    assert ([DigitChar(d)] + rest)[1..] == rest;
  }

  lemma {:induction false} DigitsStart(n: nat)
    ensures IsDigit(Digits(n)[0]) && (n > 0 ==> Digits(n)[0] != '0')
  {
    if n >= 10 {
      DigitsStart(n / 10);
    }
  }

  lemma ParseNatOfDigits(n: nat, rest: string)
    requires EndsNumber(rest)
    ensures ParseNat(Digits(n) + rest) == Some(Parsed(n, rest))
  {
    DigitsStart(n);
    var s := Digits(n) + rest;
    assert s[0] == Digits(n)[0];
    if n == 0 {
      assert s[1..] == rest;
    } else {
      ParseDigitsOfDigits(n, rest);
    }
  }

  lemma ParseNumberOfText(n: int, rest: string)
    requires EndsNumber(rest)
    ensures ParseNumber(IntText(n) + rest) == Some(Parsed(Number(n), rest))
  {
    var s := IntText(n) + rest;
    if n < 0 {
      ParseNatOfDigits(-n, rest);
      MinusSign(Digits(-n), rest);
    } else {
      ParseNatOfDigits(n, rest);
      DigitsStart(n);
      assert s[0] == Digits(n)[0];
    }
  }

  lemma MinusSign(digits: string, rest: string)
    ensures var s := "-" + digits + rest; s[0] == '-' && s[1..] == digits + rest
  {
  }

  // ---------- Reading a string back ----------

  lemma {:induction false} ParseStringOfPlain(s: string, rest: string)
    requires Plain(s)
    ensures ParseString(s + "\"" + rest) == Some(Parsed(s, rest))
  {
    var t := s + "\"" + rest;
    if s == "" {
      assert t[1..] == rest;
    } else {
      ParseStringOfPlain(s[1..], rest);
      assert t[1..] == s[1..] + "\"" + rest;
      assert t[0] == s[0] && PlainChar(s[0]);
      assert [s[0]] + s[1..] == s;
    }
  }

  // ---------- Reading a value back ----------

  lemma TextStart(v: Value)
    ensures |Text(v)| > 0
    ensures !IsSpace(Text(v)[0]) && Text(v)[0] != ']'
    ensures v.Number? ==> IsDigit(Text(v)[0]) || Text(v)[0] == '-'
  {
    if v.Number? {
      DigitsStart(if v.n < 0 then -v.n else v.n);
    }
  }

  lemma ExpectHere(c: char, rest: string)
    requires !IsSpace(c)
    ensures Expect([c] + rest, c) == Some(rest)
    ensures forall d :: d != c ==> Expect([c] + rest, d) == None
  {
  }

  lemma {:induction false} ParseText(v: Value, rest: string)
    requires PlainValue(v) && (v.Number? ==> EndsNumber(rest))
    ensures ParseValue(Text(v) + rest) == Some(Parsed(v, rest))
    decreases v, 2
  {
    match v {
      case Str(str) => ParseStrText(str, rest);
      case Number(n) => ParseNumberText(n, rest);
      case Array(items) => ParseArrayText(v, items, rest);
      case Object(members) => ParseObjectText(v, members, rest);
      case _ => WordText(v, rest);
    }
  }

  lemma WordText(v: Value, rest: string)
    requires v.Null? || v.Bool?
    ensures ParseValue(Text(v) + rest) == Some(Parsed(v, rest))
  {
  }

  lemma ParseStrText(str: string, rest: string)
    requires Plain(str)
    ensures ParseValue(Text(Str(str)) + rest) == Some(Parsed(Str(str), rest))
  {
    var s := Text(Str(str)) + rest;
    assert s[0] == '\"' && s[1..] == str + "\"" + rest;
    ParseStringOfPlain(str, rest);
  }

  lemma ParseNumberText(n: int, rest: string)
    requires EndsNumber(rest)
    ensures ParseValue(Text(Number(n)) + rest) == Some(Parsed(Number(n), rest))
  {
    TextStart(Number(n));
    assert (Text(Number(n)) + rest)[0] == Text(Number(n))[0];
    ParseNumberOfText(n, rest);
  }

  lemma EmptyArrayText(rest: string)
    ensures ParseValue(Text(Array([])) + rest) == Some(Parsed(Array([]), rest))
  {
    var s := "[]" + rest;
    assert Text(Array([])) == "[]";
    assert s[1..] == "]" + rest;
    assert SkipSpace("]" + rest)[1..] == rest;
  }

  lemma {:induction false} ParseArrayText(v: Value, items: seq<Value>, rest: string)
    requires v == Array(items) && PlainItems(items)
    ensures ParseValue(Text(v) + rest) == Some(Parsed(v, rest))
    decreases v, 1
  {
    var s := Text(v) + rest;
    assert s[0] == '[';
    if items == [] {
      EmptyArrayText(rest);
    } else {
      assert s[1..] == ItemsText(items) + ("]" + rest);
      ItemsStart(items, "]" + rest);
      ParseItemsText(items, rest);
    }
  }

  lemma {:induction false} ParseObjectText(v: Value, members: seq<Member>, rest: string)
    requires v == Object(members) && PlainMembers(members)
    ensures ParseValue(Text(v) + rest) == Some(Parsed(v, rest))
    decreases v, 1
  {
    var s := Text(v) + rest;
    assert s[0] == '{';
    if members == [] {
      assert MembersText(members) == "";
      assert s == "{}" + rest;
      assert s[1..] == "}" + rest;
      assert SkipSpace("}" + rest)[1..] == rest;
    } else {
      assert s[1..] == MembersText(members) + ("}" + rest);
      MembersStart(members, "}" + rest);
      ParseMembersText(members, rest);
    }
  }

  lemma ItemsStart(items: seq<Value>, rest: string)
    requires items != []
    ensures var s := ItemsText(items) + rest; SkipSpace(s) == s && s != "" && s[0] != ']'
  {
    TextStart(items[0]);
    assert Text(items[0]) <= ItemsText(items);
  }

  lemma MembersStart(members: seq<Member>, rest: string)
    requires members != []
    ensures var s := MembersText(members) + rest; SkipSpace(s) == s && s != "" && s[0] == '\"'
  {
  }

  lemma CommaRegroups(a: string, b: string, end: string)
    ensures (a + "," + b) + end == a + ("," + (b + end))
  {
  }

  lemma ItemsTextSplit(items: seq<Value>, end: string)
    requires items != []
    ensures items == [items[0]] + items[1..]
    ensures if |items| == 1 then items[1..] == [] && ItemsText(items) + end == Text(items[0]) + end
            else ItemsText(items) + end == Text(items[0]) + ("," + (ItemsText(items[1..]) + end))
  {
    if |items| > 1 {
      CommaRegroups(Text(items[0]), ItemsText(items[1..]), end);
    }
  }

  lemma LastItem(s: string, v: Value, rest: string)
    requires ParseValue(s) == Some(Parsed(v, "]" + rest))
    ensures ParseItems(s) == Some(Parsed([v], rest))
  {
  }

  lemma ItemBeforeComma(s: string, v: Value, more: string, vs: seq<Value>, rest: string)
    requires ParseValue(s) == Some(Parsed(v, "," + more))
    requires ParseItems(more) == Some(Parsed(vs, rest))
    ensures ParseItems(s) == Some(Parsed([v] + vs, rest))
  {
  }

  lemma {:induction false} ParseItemsText(items: seq<Value>, rest: string)
    requires items != [] && PlainItems(items)
    ensures ParseItems(ItemsText(items) + ("]" + rest)) == Some(Parsed(items, rest))
    decreases items, 0
  {
    ItemsTextSplit(items, "]" + rest);
    if |items| == 1 {
      ParseText(items[0], "]" + rest);
      assert items == [items[0]];
      LastItem(Text(items[0]) + ("]" + rest), items[0], rest);
    } else {
      var more := ItemsText(items[1..]) + ("]" + rest);
      ParseText(items[0], "," + more);
      ParseItemsText(items[1..], rest);
      ItemBeforeComma(Text(items[0]) + ("," + more), items[0], more, items[1..], rest);
    }
  }

  lemma {:induction false} ParseMemberText(m: Member, rest: string)
    requires Plain(m.name) && PlainValue(m.value) && EndsNumber(rest)
    ensures ParseMember(MemberText(m) + rest) == Some(Parsed(m, rest))
    decreases m, 3
  {
    var behindColon := Text(m.value) + rest;
    var behindName := ":" + behindColon;
    assert MemberText(m) + rest == "\"" + (m.name + "\"" + behindName);
    ExpectHere('\"', m.name + "\"" + behindName);
    ParseStringOfPlain(m.name, behindName);
    ExpectHere(':', behindColon);
    ParseText(m.value, rest);
  }

  lemma MembersTextSplit(members: seq<Member>, end: string)
    requires members != []
    ensures members == [members[0]] + members[1..]
    ensures if |members| == 1 then members[1..] == [] && MembersText(members) + end == MemberText(members[0]) + end
            else MembersText(members) + end == MemberText(members[0]) + ("," + (MembersText(members[1..]) + end))
  {
    if |members| > 1 {
      CommaRegroups(MemberText(members[0]), MembersText(members[1..]), end);
    }
  }

  lemma LastMember(s: string, m: Member, rest: string)
    requires ParseMember(s) == Some(Parsed(m, "}" + rest))
    ensures ParseMembers(s) == Some(Parsed([m], rest))
  {
  }

  lemma MemberBeforeComma(s: string, m: Member, more: string, ms: seq<Member>, rest: string)
    requires ParseMember(s) == Some(Parsed(m, "," + more))
    requires ParseMembers(more) == Some(Parsed(ms, rest))
    ensures ParseMembers(s) == Some(Parsed([m] + ms, rest))
  {
  }

  lemma {:induction false} ParseMembersText(members: seq<Member>, rest: string)
    requires members != [] && PlainMembers(members)
    ensures ParseMembers(MembersText(members) + ("}" + rest)) == Some(Parsed(members, rest))
    decreases members, 0
  {
    MembersTextSplit(members, "}" + rest);
    if |members| == 1 {
      ParseMemberText(members[0], "}" + rest);
      assert members == [members[0]];
      LastMember(MemberText(members[0]) + ("}" + rest), members[0], rest);
    } else {
      var more := MembersText(members[1..]) + ("}" + rest);
      ParseMemberText(members[0], "," + more);
      ParseMembersText(members[1..], rest);
      MemberBeforeComma(MemberText(members[0]) + ("," + more), members[0], more, members[1..], rest);
    }
  }

  // ---------- The compact text is the shortest ----------

  lemma {:induction false} DigitsOfParsed(s: string, acc: nat)
    ensures var p := ParseDigits(s, acc);
            && |Digits(p.value)| <= |Digits(acc)| + |s| - |p.rest|
  {
    if s != "" && IsDigit(s[0]) {
      var d := DigitValue(s[0]);
      DigitsOfParsed(s[1..], 10 * acc + d);
      OneMoreDigit(acc, d);
    }
  }

  lemma OneMoreDigit(acc: nat, d: nat)
    requires d < 10
    ensures |Digits(10 * acc + d)| <= |Digits(acc)| + 1
  {
    assert (10 * acc + d) / 10 == acc;
  }

  lemma ParsedNatIsLong(s: string)
    ensures ParseNat(s).Some? ==> |Digits(ParseNat(s).value.value)| <= |s| - |ParseNat(s).value.rest|
  {
    if s != "" && IsDigit(s[0]) && s[0] != '0' {
      var d := DigitValue(s[0]);
      DigitsOfParsed(s[1..], d);
    }
  }

  lemma ParsedNumberIsLong(s: string)
    ensures ParseNumber(s).Some? ==>
              ParseNumber(s).value.value.Number? &&
              |Text(ParseNumber(s).value.value)| <= |s| - |ParseNumber(s).value.rest|
  {
    if s != "" && s[0] == '-' {
      ParsedNatIsLong(s[1..]);
    } else {
      ParsedNatIsLong(s);
    }
  }

  /** A string literal is at least as long as its content, and longer if the content needs escaping. */
  lemma {:induction false} ParsedStringIsLong(s: string)
    ensures ParseString(s).Some? ==>
              var p := ParseString(s).value;
              && |p.value| + 1 <= |s| - |p.rest|
              && (!Plain(p.value) ==> |p.value| + 1 < |s| - |p.rest|)
    decreases |s|
  {
    if s == "" || s[0] == '\"' {
    } else if s[0] == '\\' {
      var c := ParseEscape(s[1..]);
      if c.Some? {
        ParsedStringIsLong(c.value.rest);
      }
    } else if s[0] >= ' ' && ParseString(s[1..]).Some? {
      ParsedStringIsLong(s[1..]);
      var q := ParseString(s[1..]).value;
      assert Plain(q.value) ==> Plain([s[0]] + q.value);
    }
  }

  /** The length of the text a parser read, against the compact text of what it found. */
  predicate Longer(read: int, compact: int, plain: bool) {
    compact <= read && (!plain ==> compact < read)
  }

  lemma {:induction false} ParsedValueIsLong(s: string)
    ensures ParseValue(s).Some? ==>
              var p := ParseValue(s).value;
              Longer(|s| - |p.rest|, |Text(p.value)|, PlainValue(p.value))
    decreases |s|, 2
  {
    var t := SkipSpace(s);
    if t != "" {
      if t[0] == '\"' {
        ParsedStringIsLong(t[1..]);
      } else if t[0] == '[' {
        ParsedItemsAreLong(t[1..]);
      } else if t[0] == '{' {
        ParsedMembersAreLong(t[1..]);
      } else {
        ParsedNumberIsLong(t);
      }
    }
  }

  lemma {:induction false} ParsedItemsAreLong(s: string)
    ensures ParseItems(s).Some? ==>
              var p := ParseItems(s).value;
              Longer(|s| - |p.rest|, |ItemsText(p.value)| + 1, PlainItems(p.value))
    decreases |s|, 3
  {
    if ParseItems(s).Some? {
      ParsedValueIsLong(s);
      var first := ParseValue(s).value;
      if Expect(first.rest, ']').None? {
        var more := Expect(first.rest, ',').value;
        ParsedItemsAreLong(more);
        var tail := ParseItems(more).value;
        var items := [first.value] + tail.value;
        assert items[1..] == tail.value;
        assert PlainItems(items) == (PlainValue(first.value) && PlainItems(tail.value));
      } else {
        assert PlainItems([first.value]) == PlainValue(first.value);
      }
    }
  }

  lemma {:induction false} ParsedMemberIsLong(s: string)
    ensures ParseMember(s).Some? ==>
              var p := ParseMember(s).value;
              Longer(|s| - |p.rest|, |MemberText(p.value)|, Plain(p.value.name) && PlainValue(p.value.value))
    decreases |s|, 3
  {
    if ParseMember(s).Some? {
      var open := Expect(s, '\"').value;
      ParsedStringIsLong(open);
      ParsedValueIsLong(Expect(ParseString(open).value.rest, ':').value);
    }
  }

  lemma {:induction false} ParsedMembersAreLong(s: string)
    ensures ParseMembers(s).Some? ==>
              var p := ParseMembers(s).value;
              Longer(|s| - |p.rest|, |MembersText(p.value)| + 1, PlainMembers(p.value))
    decreases |s|, 4
  {
    if ParseMembers(s).Some? {
      ParsedMemberIsLong(s);
      var first := ParseMember(s).value;
      if Expect(first.rest, '}').None? {
        var more := Expect(first.rest, ',').value;
        ParsedMembersAreLong(more);
        var tail := ParseMembers(more).value;
        var members := [first.value] + tail.value;
        assert members[1..] == tail.value;
        assert PlainMembers(members) ==
               (Plain(first.value.name) && PlainValue(first.value.value) && PlainMembers(tail.value));
      } else {
        assert PlainMembers([first.value]) == (Plain(first.value.name) && PlainValue(first.value.value));
      }
    }
  }

  /** A whole text: one value with nothing but white space behind it. */
  function ParseAll(s: string): Option<Value> {
    var p :- ParseValue(s);
    if SkipSpace(p.rest) == "" then Some(p.value) else None
  }

  /** Exactly the values without special characters in their strings survive compact printing. */
  lemma ParseAllIffPlain(v: Value)
    ensures ParseAll(Text(v)) == Some(v) <==> PlainValue(v)
  {
    if PlainValue(v) {
      ParseText(v, "");
      assert Text(v) + "" == Text(v);
    } else {
      ParsedValueIsLong(Text(v));
    }
  }
}
