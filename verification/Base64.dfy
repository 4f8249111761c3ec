/**
 The base64 decoder (src/sky_util_base64.c) against the encoding of section 4
 of RFC 4648.
 */
module Base64 {
  import opened Wrappers

  type Byte = n: int | 0 <= n < 256

  /** The character for each six-bit value (table 1 of RFC 4648). */
  function Symbol(k: nat): char
    requires k < 64
  {
    if k < 26 then 'A' + k as char
    else if k < 52 then 'a' + (k - 26) as char
    else if k < 62 then '0' + (k - 52) as char
    else if k == 62 then '+'
    else '/'
  }

  /** n characters in the order of their codes. */
  function Consecutive(first: char, n: nat): (s: string)
    requires first as int + n < 0x80
    ensures |s| == n && forall i :: 0 <= i < n ==> s[i] == first + i as char
  {
    if n == 0 then "" else Consecutive(first, n - 1) + [first + (n - 1) as char]
  }

  /** The symbols are the table of the source, in its order. */
  lemma SymbolsAreTheTable(k: nat)
    requires k < 64
    ensures Symbol(k) ==
            ("ABCDEFGHIJKLMNOPQRSTUVWXYZ" + "abcdefghijklmnopqrstuvwxyz" + "0123456789" + "+/")[k]
  {
    UpperCase();
    LowerCase();
    assert Consecutive('0', 10) == "0123456789";
  }

  lemma UpperCase()
    ensures Consecutive('A', 26) == "ABCDEFGHIJKLMNOPQRSTUVWXYZ"
  {
  }

  lemma LowerCase()
    ensures Consecutive('a', 26) == "abcdefghijklmnopqrstuvwxyz"
  {
  }

  // ---------- The decoder ----------

  /** The value a character stands for; 64 for the padding character and every other one. */
  function Index(c: char): (k: nat)
    ensures k <= 64
  {
    if 'A' <= c <= 'Z' then (c - 'A') as nat
    else if 'a' <= c <= 'z' then (c - 'a') as nat + 26
    else if '0' <= c <= '9' then (c - '0') as nat + 52
    else if c == '+' then 62
    else if c == '/' then 63
    else 64
  }

  /** A search of the table from its start stops at the index of the character. */
  lemma SearchFindsIndex(c: char, k: nat)
    requires k <= 64 && forall i :: 0 <= i < k ==> Symbol(i) != c
    requires k < 64 ==> Symbol(k) == c
    ensures k == Index(c)
  {
    var i := Index(c);
    if i < 64 {
      assert Symbol(i) == c;
    }
  }

  /** The sum of shifted positions, stored into a char and so cut to its low eight bits. */
  function First(a: nat, b: nat): Byte {
    (a * 4 + b / 16) % 256
  }

  function Second(b: nat, c: nat): Byte {
    (b * 16 + c / 4) % 256
  }

  function Third(c: nat, d: nat): Byte {
    (c * 64 + d) % 256
  }

  /** The bytes of one group of four positions: one byte always, the second and third unless padded. */
  function Group(a: nat, b: nat, c: nat, d: nat): (bytes: seq<Byte>)
    ensures 1 <= |bytes| <= 3
  {
    [First(a, b)]
    + (if c != 64 then [Second(b, c)] else [])
    + (if d != 64 then [Third(c, d)] else [])
  }

  /** The values of the characters of a text, last character last. */
  function Indices(s: string): (v: seq<nat>)
    ensures |v| == |s|
    ensures forall i :: 0 <= i < |s| ==> v[i] == Index(s[i])
  {
    if s == "" then [] else Indices(s[..|s| - 1]) + [Index(s[|s| - 1])]
  }

  lemma IndicesAppend(s: string, c: char)
    ensures Indices(s + [c]) == Indices(s) + [Index(c)]
  {
  }

  /** The bytes of the first four characters. */
  function FirstGroup(cipher: string): (bytes: seq<Byte>)
    requires |cipher| >= 4
    ensures 1 <= |bytes| <= 3
  {
    Group(Index(cipher[0]), Index(cipher[1]), Index(cipher[2]), Index(cipher[3]))
  }

  /** Four characters at a time; fewer than four at the end are ignored. */
  function Decoded(cipher: string): (bytes: seq<Byte>)
    ensures 4 * |bytes| <= 3 * |cipher|
  {
    if |cipher| < 4 then []
    else FirstGroup(cipher) + Decoded(cipher[4..])
  }

  /** Text made of n whole groups decodes group by group. */
  lemma {:induction false} DecodedAppend(done: string, n: nat, group: string)
    requires |done| == 4 * n && |group| <= 4
    ensures Decoded(done + group) == Decoded(done) + Decoded(group)
    decreases n
  {
    if n == 0 {
      assert done + group == group;
    } else {
      DecodedAppend(done[4..], n - 1, group);
      assert (done + group)[4..] == done[4..] + group;
      assert FirstGroup(done + group) == FirstGroup(done);
      assert FirstGroup(done) + (Decoded(done[4..]) + Decoded(group)) == Decoded(done) + Decoded(group);
    }
  }

  /** After one more full group the output holds its bytes too, and there was room for them. */
  lemma OneMoreGroup(done: string, n: nat, group: string, room: nat)
    requires |done| == 4 * n && |group| == 4 && 3 * (|done| + 4) < 4 * room + 4
    ensures Decoded(done + group) == Decoded(done) + FirstGroup(group)
    ensures |Decoded(done)| + 3 <= room
  {
    DecodedAppend(done, n, group);
    assert Decoded(group[4..]) == [];
  }

  /** An incomplete group at the end adds nothing. */
  lemma TailIsIgnored(cipher: string, done: string, n: nat, tail: string)
    requires cipher == done + tail && |done| == 4 * n && |tail| < 4
    ensures Decoded(cipher) == Decoded(done)
  {
    DecodedAppend(done, n, tail);
  }

  /** Writes the one to three bytes of a group. */
  method WriteGroup(a: nat, b: nat, c: nat, d: nat, plain: array<Byte>, start: nat) returns (p: nat)
    requires start + 3 <= plain.Length
    modifies plain
    ensures p <= plain.Length && plain[..p] == old(plain[..start]) + Group(a, b, c, d)
  {
    p := start;
    plain[p] := First(a, b);
    p := p + 1;
    if c != 64 {
      plain[p] := Second(b, c);
      p := p + 1;
    }
    if d != 64 {
      plain[p] := Third(c, d);
      p := p + 1;
    }
  }

  /** Empties a full buffer into the output; the write index stays within it. */
  method Flush(buffer: seq<nat>, plain: array<Byte>, start: nat, ghost done: string, ghost n: nat, ghost group: string)
    returns (p: nat)
    requires |buffer| == |group| == 4 && buffer == Indices(group)
    requires |done| == 4 * n && 3 * (|done| + 4) < 4 * plain.Length + 4
    requires start <= plain.Length && plain[..start] == Decoded(done)
    modifies plain
    ensures p <= plain.Length && plain[..p] == Decoded(done + group)
  {
    OneMoreGroup(done, n, group, plain.Length);
    assert start == |Decoded(done)|;
    p := WriteGroup(buffer[0], buffer[1], buffer[2], buffer[3], plain, start);
  }

  /** The inner loop: searches the table from its start. */
  method Lookup(c: char) returns (k: nat)
    ensures k == Index(c)
  {
    k := 0;
    while k < 64 && Symbol(k) != c
      invariant k <= 64 && forall j :: 0 <= j < k ==> Symbol(j) != c
    {
      k := k + 1;
    }
    SearchFindsIndex(c, k);
  }

  /** After i characters: n whole groups are done, and `counts` positions wait in the buffer. */
  ghost predicate Buffered(cipher: string, i: nat, buffer: seq<nat>, counts: nat, done: string, n: nat, pending: string)
  {
    && i <= |cipher| && cipher[..i] == done + pending
    && |done| == 4 * n && |pending| == counts <= 4 && |buffer| == 4
    && buffer[..counts] == Indices(pending)
  }

  lemma OneMoreCharacter(cipher: string, i: nat, buffer: seq<nat>, counts: nat, done: string, n: nat, pending: string)
    requires i < |cipher| && counts < 4 && Buffered(cipher, i, buffer, counts, done, n, pending)
    ensures Buffered(cipher, i + 1, buffer[counts := Index(cipher[i])], counts + 1, done, n, pending + [cipher[i]])
  {
    IndicesAppend(pending, cipher[i]);
    var more := buffer[counts := Index(cipher[i])];
    assert more[..counts + 1] == buffer[..counts] + [Index(cipher[i])];
    assert cipher[..i + 1] == cipher[..i] + [cipher[i]];
    Regroup(done, pending, [cipher[i]]);
  }

  /** A full buffer holds one more group. */
  lemma FullBuffer(cipher: string, i: nat, buffer: seq<nat>, done: string, n: nat, pending: string)
    requires Buffered(cipher, i, buffer, 4, done, n, pending)
    ensures buffer == Indices(pending) && Buffered(cipher, i, buffer, 0, done + pending, n + 1, "")
  {
    assert buffer[..4] == buffer;
    assert buffer[..0] == [];
  }

  lemma DecodedAtEnd(cipher: string, buffer: seq<nat>, counts: nat, done: string, n: nat, pending: string)
    requires counts < 4 && Buffered(cipher, |cipher|, buffer, counts, done, n, pending)
    ensures Decoded(done) == Decoded(cipher)
  {
    assert cipher[..|cipher|] == cipher;
    TailIsIgnored(cipher, done, n, pending);
  }

  /**
   The decoder as written: one character at a time into a buffer of four, which
   is emptied into the output when it is full.
   */
  method Decode(cipher: string) returns (plain: array<Byte>, p: nat)
    ensures plain.Length == |cipher| * 3 / 4 && p <= plain.Length
    ensures plain[..p] == Decoded(cipher)
  {
    var counts := 0;
    var buffer: seq<nat> := [0, 0, 0, 0];
    var length := |cipher| * 3 / 4;
    plain := new Byte[length];
    p := 0;
    ghost var done, n, pending: string := "", 0, "";
    for i := 0 to |cipher|
      invariant counts < 4 && Buffered(cipher, i, buffer, counts, done, n, pending)
      invariant p <= plain.Length && plain[..p] == Decoded(done)
    {
      var k := Lookup(cipher[i]);
      OneMoreCharacter(cipher, i, buffer, counts, done, n, pending);
      pending := pending + [cipher[i]];
      buffer := buffer[counts := k];
      counts := counts + 1;
      if counts == 4 {
        FullBuffer(cipher, i + 1, buffer, done, n, pending);
        p := Flush(buffer, plain, p, done, n, pending);
        done, n, pending := done + pending, n + 1, "";
        counts := 0;
      }
    }
    DecodedAtEnd(cipher, buffer, counts, done, n, pending);
  }

  // ---------- The standard encoding ----------

  /** Three bytes as one 24-bit number. */
  function Bits24(x: Byte, y: Byte, z: Byte): nat {
    x * 0x1_0000 + y * 0x100 + z
  }

  /** The k-th of the four 6-bit groups of a 24-bit number, from the left. */
  function Sextet(bits: nat, k: nat): (s: nat)
    requires k < 4
    ensures s < 64
  {
    (if k == 0 then bits / 0x4_0000 else if k == 1 then bits / 0x1000 else if k == 2 then bits / 0x40 else bits) % 64
  }

  /** The encoding of the first three bytes, or of fewer bytes padded to four characters. */
  function EncodedGroup(bytes: seq<Byte>): (s: string)
    requires 1 <= |bytes| <= 3
    ensures |s| == 4
  {
    var b := Bits24(bytes[0], if |bytes| > 1 then bytes[1] else 0, if |bytes| > 2 then bytes[2] else 0);
    [Symbol(Sextet(b, 0)), Symbol(Sextet(b, 1)),
     if |bytes| > 1 then Symbol(Sextet(b, 2)) else '=',
     if |bytes| > 2 then Symbol(Sextet(b, 3)) else '=']
  }

  /** Three bytes become four characters; one or two bytes at the end are padded. */
  function Encoded(bytes: seq<Byte>): (s: string)
    decreases |bytes|
  {
    if |bytes| == 0 then ""
    else if |bytes| <= 3 then EncodedGroup(bytes)
    else EncodedGroup(bytes[..3]) + Encoded(bytes[3..])
  }

  // ---------- Decoding undoes encoding ----------

  /** Shifting, adding and cutting to eight bits puts the bits of the groups back side by side. */
  lemma ShiftsJoinBits(x: Byte, y: Byte, z: Byte)
    ensures var b := Bits24(x, y, z);
            && First(Sextet(b, 0), Sextet(b, 1)) == x
            && Second(Sextet(b, 1), Sextet(b, 2)) == y
            && Third(Sextet(b, 2), Sextet(b, 3)) == z
  {
    SextetsAreBitGroups(x, y, z);
    GroupsJoin(x, y, z);
  }

  lemma GroupsJoin(x: Byte, y: Byte, z: Byte)
    ensures First(x / 4, x % 4 * 16 + y / 16) == x
    ensures Second(x % 4 * 16 + y / 16, y % 16 * 4 + z / 64) == y
    ensures Third(y % 16 * 4 + z / 64, z % 64) == z
  {
    FirstJoins(x, y / 16);
    SecondJoins(x % 4, y, z / 64);
    ThirdJoins(y % 16, z);
  }

  lemma FirstJoins(x: Byte, low: nat)
    requires low < 16
    ensures First(x / 4, x % 4 * 16 + low) == x
  {
  }

  /** The bits above the eight low ones are cut off. */
  lemma SecondJoins(above: nat, y: Byte, low: nat)
    requires above < 4 && low < 4
    ensures Second(above * 16 + y / 16, y % 16 * 4 + low) == y
  {
    assert (y % 16 * 4 + low) / 4 == y % 16;
    assert (above * 16 + y / 16) * 16 + y % 16 == above * 256 + y;
    LowByte(above, y);
  }

  lemma LowByte(above: nat, y: Byte)
    ensures (above * 256 + y) % 256 == y
  {
  }

  lemma ThirdJoins(above: nat, z: Byte)
    requires above < 16
    ensures Third(above * 4 + z / 64, z % 64) == z
  {
  }

  lemma SextetsAreBitGroups(x: Byte, y: Byte, z: Byte)
    ensures var b := Bits24(x, y, z);
            && Sextet(b, 0) == x / 4
            && Sextet(b, 1) == x % 4 * 16 + y / 16
            && Sextet(b, 2) == y % 16 * 4 + z / 64
            && Sextet(b, 3) == z % 64
  {
    var b := Bits24(x, y, z);
    TopBits(x, y, z);
    LowSixBits(x / 4, x % 4 * 16 + y / 16);
    LowSixBits(x * 16 + y / 16, y % 16 * 4 + z / 64);
    LowSixBits(x * 0x400 + y * 4 + z / 64, z % 64);
  }

  lemma LowSixBits(above: nat, low: nat)
    requires low < 64
    ensures (above * 64 + low) % 64 == low
  {
  }

  lemma TopBits(x: Byte, y: Byte, z: Byte)
    ensures var b := Bits24(x, y, z);
            b / 0x4_0000 == x / 4 && b / 0x1000 == x * 16 + y / 16 && b / 0x40 == x * 0x400 + y * 4 + z / 64
  {
  }

  lemma IndexOfSymbol(k: nat)
    requires k < 64
    ensures Index(Symbol(k)) == k && Symbol(k) != '=' && Symbol(k) != '-'
  {
  }

  lemma DecodeUndoesGroup(bytes: seq<Byte>)
    requires 1 <= |bytes| <= 3
    ensures var s := EncodedGroup(bytes);
            Group(Index(s[0]), Index(s[1]), Index(s[2]), Index(s[3])) == bytes && '-' !in s
  {
    var x, y, z := bytes[0], if |bytes| > 1 then bytes[1] else 0, if |bytes| > 2 then bytes[2] else 0;
    var b := Bits24(x, y, z);
    ShiftsJoinBits(x, y, z);
    IndexOfSymbol(Sextet(b, 0));
    IndexOfSymbol(Sextet(b, 1));
    IndexOfSymbol(Sextet(b, 2));
    IndexOfSymbol(Sextet(b, 3));
  }

  lemma {:induction false} DecodeUndoesEncode(bytes: seq<Byte>)
    ensures Decoded(Encoded(bytes)) == bytes
    decreases |bytes|
  {
    if bytes != [] {
      var n := if |bytes| < 3 then |bytes| else 3;
      var s := EncodedGroup(bytes[..n]);
      DecodeUndoesGroup(bytes[..n]);
      DecodeUndoesEncode(bytes[n..]);
      assert Encoded(bytes) == s + Encoded(bytes[n..]);
      assert Encoded(bytes)[4..] == Encoded(bytes[n..]);
      assert bytes[..n] + bytes[n..] == bytes;
    }
  }

  /** Encoded text holds symbols of the alphabet and padding, so never a dash; only nothing encodes to nothing. */
  lemma {:induction false} EncodedHasNoDash(bytes: seq<Byte>)
    ensures '-' !in Encoded(bytes)
    ensures Encoded(bytes) == "" <==> bytes == []
    decreases |bytes|
  {
    if bytes != [] {
      var n := if |bytes| < 3 then |bytes| else 3;
      DecodeUndoesGroup(bytes[..n]);
      EncodedHasNoDash(bytes[n..]);
    }
  }

  /** The encodings of the first letters of "foobar" (section 10 of RFC 4648), decoded. */
  lemma DecodedExamples()
    ensures Decoded("") == []
    ensures Decoded("Zg==") == [102]
    ensures Decoded("Zm8=") == [102, 111]
    ensures Decoded("Zm9v") == [102, 111, 111]
  {
    OneGroup("Zg==");
    OneGroup("Zm8=");
    OneGroup("Zm9v");
  }

  /** And of the whole word. */
  lemma DecodedLongerExample()
    ensures Decoded("Zm9vYmFy") == [102, 111, 111, 98, 97, 114]
  {
    DecodedExamples();
    OneGroup("YmFy");
    DecodedAppend("Zm9v", 1, "YmFy");
    assert "Zm9v" + "YmFy" == "Zm9vYmFy";
  }

  /** Encoding gives the examples back, with their padding. */
  lemma EncodedExamples()
    ensures Encoded([102]) == "Zg==" && Encoded([102, 111]) == "Zm8=" && Encoded([102, 111, 111]) == "Zm9v"
  {
    assert EncodedGroup([102]) == "Zg==";
    assert EncodedGroup([102, 111]) == "Zm8=";
    assert EncodedGroup([102, 111, 111]) == "Zm9v";
  }

  lemma OneGroup(group: string)
    requires |group| == 4
    ensures Decoded(group) == FirstGroup(group)
  {
    assert group[4..] == "" && Decoded("") == [];
  }

  /**
   Characters outside the table are not refused: each counts as 64, which spills
   into its neighbours in the first two places and leaves a byte out in the last two.
   */
  lemma StrangeCharactersCountAs64()
    ensures Decoded("====") == [4] && Decoded("A===") == [4] && Decoded("A-BC") == [4, 0, 66]
    ensures Decoded("AB C") == [0, 2] && Decoded("ABC?") == [0, 16]
  {
    OneGroup("====");
    OneGroup("A===");
    OneGroup("A-BC");
    OneGroup("AB C");
    OneGroup("ABC?");
  }
}
