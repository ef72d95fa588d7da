/** What the parts of an ADIF file mean: words, line ends, lengths, tags and the bytes of characters. */
module AdifMeaning {
  import opened Sums
  import opened Utf8
  import opened AdifText
  import opened AdifRoundTrip

  // ----- words and white space -----

  predicate AllSpace(s: string) {
    forall i :: 0 <= i < |s| ==> IsSpace(s[i])
  }

  lemma {:induction false} TrimEndIs(s: string) returns (right: string)
    ensures s == TrimEnd(s) + right && AllSpace(right)
  {
    right := "";
    if s != "" && IsSpace(s[|s| - 1]) {
      var rest := TrimEndIs(s[..|s| - 1]);
      right := rest + [s[|s| - 1]];
      assert s == s[..|s| - 1] + [s[|s| - 1]];
    }
  }

  lemma {:induction false} TrimStartIs(s: string) returns (left: string)
    ensures s == left + TrimStart(s) && AllSpace(left)
  {
    left := "";
    if s != "" && IsSpace(s[0]) {
      var rest := TrimStartIs(s[1..]);
      left := [s[0]] + rest;
      assert s == [s[0]] + s[1..];
    }
  }

  /** Trimming takes away the white space at both ends, and nothing else. */
  lemma TrimIs(s: string) returns (left: string, right: string)
    ensures s == left + Trim(s) + right && AllSpace(left) && AllSpace(right)
    ensures Trim(s) != "" ==> !IsSpace(Trim(s)[0]) && !IsSpace(Trim(s)[|Trim(s)| - 1])
  {
    left := TrimStartIs(s);
    right := TrimEndIs(TrimStart(s));
    TrimStartShape(s);
    TrimEndShape(TrimStart(s));
  }

  /** A name in a tag: letters count as capitals, and what is no letter, digit or underscore becomes an underscore. */
  lemma NameIs(name: string)
    ensures var t, r := Trim(name), NormalizeFieldName(name);
            && |r| == |t|
            && forall i :: 0 <= i < |t| ==>
                 if 'a' <= t[i] <= 'z' then 'A' <= r[i] <= 'Z' && t[i] as int - r[i] as int == 'a' as int - 'A' as int
                 else if 'A' <= t[i] <= 'Z' || '0' <= t[i] <= '9' || t[i] == '_' then r[i] == t[i]
                 else r[i] == '_'
  {
    hide Trim;
  }

  /** The two texts are the same but for the case of letters, and the second is in capitals. */
  predicate SameLetters(s: string, word: string) {
    && |s| == |word|
    && forall i :: 0 <= i < |word| ==>
         'A' <= word[i] <= 'Z' && (s[i] == word[i] || s[i] as int == word[i] as int + 'a' as int - 'A' as int)
  }

  lemma CapitalsAre(s: string, word: string)
    requires forall i :: 0 <= i < |word| ==> 'A' <= word[i] <= 'Z'
    ensures AsciiUpper(s) == word <==> SameLetters(s, word)
  {
    if AsciiUpper(s) == word {
      forall i | 0 <= i < |word|
        ensures s[i] == word[i] || s[i] as int == word[i] as int + 'a' as int - 'A' as int
      {
        assert word[i] == UpperChar(s[i]);
      }
    }
    if SameLetters(s, word) {
      forall i | 0 <= i < |word| ensures UpperChar(s[i]) == word[i] { }
    }
  }

  // ----- line ends -----

  lemma PlainFirst(s: string)
    requires s != "" && s[0] != '\r' && s[0] != '\n'
    ensures OnOneLine(s) == [s[0]] + OnOneLine(s[1..])
  {
  }

  lemma {:induction false} OneLineJoin(a: string, b: string)
    requires '\r' !in a && '\n' !in a
    ensures OnOneLine(a + b) == a + OnOneLine(b)
  {
    if a == "" {
      assert a + b == b;
    } else {
      assert a[0] in a;
      OneLineJoin(a[1..], b);
      PlainFirst(a + b);
      hide OnOneLine;
      assert (a + b)[1..] == a[1..] + b && a == [a[0]] + a[1..];
      Associate([a[0]], a[1..], OnOneLine(b));
    }
  }

  lemma EndIsSpace(end: string, b: string)
    requires end in {"\r\n", "\n", "\r"} && (end == "\r" ==> b == "" || b[0] != '\n')
    ensures OnOneLine(end + b) == " " + OnOneLine(b)
  {
    var text := end + b;
    assert text[|end|..] == b;
    assert end == "\r\n" ==> text[0] == '\r' && text[1] == '\n';
    assert end == "\n" ==> text[0] == '\n';
    assert end == "\r" ==> text[0] == '\r' && (|text| >= 2 ==> text[1] == b[0]);
  }

  /** Each line end, of whichever kind, becomes one space; text without line ends stays as it is. */
  lemma OneLineIs(a: string, end: string, b: string)
    requires '\r' !in a && '\n' !in a
    requires end in {"\r\n", "\n", "\r"} && (end == "\r" ==> b == "" || b[0] != '\n')
    ensures OnOneLine(a) == a
    ensures OnOneLine(a + end + b) == a + " " + OnOneLine(b)
  {
    OneLineJoin(a, "");
    assert OnOneLine("") == "";
    hide OnOneLine;
    assert a + "" == a;
    OneLineJoin(a, end + b);
    EndIsSpace(end, b);
    Associate(a, end, b);
    Associate(a, " ", OnOneLine(b));
  }

  // ----- lengths -----

  function PowerOfTen(n: nat): nat {
    if n == 0 then 1 else 10 * PowerOfTen(n - 1)
  }

  predicate Digits(s: string) {
    forall i :: 0 <= i < |s| ==> '0' <= s[i] <= '9'
  }

  /** The value of digits, the first of which counts most. */
  function ValueOf(s: string): nat
    requires Digits(s)
  {
    if s == "" then 0
    else (s[0] as int - '0' as int) * PowerOfTen(|s| - 1) + ValueOf(s[1..])
  }

  lemma {:induction false} ValueOfLast(s: string)
    requires Digits(s) && s != ""
    ensures ValueOf(s) == ValueOf(s[..|s| - 1]) * 10 + (s[|s| - 1] as int - '0' as int)
  {
    if |s| > 1 {
      ValueOfLast(s[1..]);
      var init := s[..|s| - 1];
      assert s[1..][..|s| - 2] == init[1..] && s[1..][|s| - 2] == s[|s| - 1];
      var d, w := s[0] as int - '0' as int, PowerOfTen(|s| - 2);
      assert PowerOfTen(|s| - 1) == 10 * w;
      assert d * (10 * w) == 10 * (d * w);
    } else {
      assert ValueOf(s[1..]) == 0 && ValueOf(s[..0]) == 0;
      assert PowerOfTen(0) == 1;
    }
  }

  lemma {:induction false} NumberIs(s: string)
    ensures Number(s) == if Digits(s) then Some(ValueOf(s)) else None
  {
    if s != "" {
      var init := s[..|s| - 1];
      NumberIs(init);
      assert s == init + [s[|s| - 1]];
      if Digits(s) { ValueOfLast(s); }
      assert Digits(s) <==> Digits(init) && IsDigit(s[|s| - 1]);
    }
  }

  predicate WritesLength(s: string, n: nat) {
    var digits := if s != "" && s[0] == '+' then s[1..] else s;
    digits != "" && Digits(digits) && n == ValueOf(digits) && n < 0x1_0000_0000_0000_0000
  }

  lemma LengthIs(s: string, n: nat)
    ensures ParseUsize(s) == Some(n) <==> WritesLength(s, n)
  {
    hide Number, Digits;
    NumberIs(if s != "" && s[0] == '+' then s[1..] else s);
  }

  // ----- tags -----

  lemma {:induction false} NothingAfterColon(s: string)
    ensures AfterColon(s).None? <==> ':' !in s
  {
    if s != "" { NothingAfterColon(s[1..]); }
  }

  /** Nothing, or a colon and the data type behind it. */
  predicate TypePart(s: string) {
    s == "" || s[0] == ':'
  }

  lemma {:induction false} BeforeTypePart(s: string, kind: string)
    requires ':' !in s && TypePart(kind)
    ensures BeforeColon(s + kind) == s
  {
    if s == "" {
      assert s + kind == kind;
    } else {
      BeforeTypePart(s[1..], kind);
      assert (s + kind)[1..] == s[1..] + kind;
      assert s[0] in s;
    }
  }

  /**
   A tag gives a name and a length, and may give a data type behind them, which does not matter. A tag without a
   colon, or whose length is not one, is no tag of a field.
   */
  lemma FieldTagIs(name: string, length: string, kind: string, n: nat)
    requires ':' !in name && ':' !in length && TypePart(kind)
    ensures var tag := name + ":" + length + kind;
            ParseTag(tag) == Some((NormalizeFieldName(name), n)) <==> WritesLength(Trim(length), n)
    ensures (forall m: nat :: !WritesLength(Trim(length), m)) ==> ParseTag(name + ":" + length + kind) == None
    ensures ParseTag(name) == None
  {
    hide Trim, NormalizeFieldName, ParseUsize, WritesLength, AfterColon, BeforeColon, NameChar;
    var tag := name + ":" + length + kind;
    assert tag == name + ":" + (length + kind);
    ColonSplits(name, length + kind);
    BeforeTypePart(length, kind);
    LengthIs(Trim(length), n);
    forall m { LengthIs(Trim(length), m); }
    NothingAfterColon(name);
    assert ParseTag(tag) ==
           match ParseUsize(Trim(length)) case None => None case Some(m) => Some((NormalizeFieldName(name), m));
  }

  /** Which tags end a header, and which a record: in any case of letters, and with white space around. */
  predicate Ends(tag: string, word: string) {
    SameLetters(Trim(tag), word)
  }

  /** What a tag does: it ends the header or a record, or begins a field, or is a problem. */
  lemma TagDoes(st: State, tag: string, tagLine: nat, behind: seq<Byte>)
    ensures var r := TakeTag(st, tag, tagLine, behind);
            && (Ends(tag, "EOH") ==> r == Ok((st.(inHeader := false, pending := map[], pendingLine := None), 0)))
            && (Ends(tag, "EOR") ==> r == Ok((EndOfRecord(st, tagLine), 0)))
            && (!Ends(tag, "EOH") && !Ends(tag, "EOR") ==>
                  match ParseTag(tag)
                  case None => r == Err(tagLine, InvalidTag)
                  case Some((name, n)) =>
                    && (n > |behind| ==> r == Err(tagLine, TruncatedField))
                    && (n <= |behind| && Decode(behind[..n]).None? ==> r == Err(tagLine, FieldNotUtf8))
                    && (n <= |behind| && Decode(behind[..n]).Some? && name == "" ==> r == Err(tagLine, EmptyName))
                    && (n <= |behind| && Decode(behind[..n]).Some? && name != "" ==>
                          var value := Trim(Decode(behind[..n]).value);
                          r == Ok((TakeField(st.(line := st.line + Newlines(behind[..n])), tagLine, name, value), n))))
  {
    CapitalsAre(Trim(tag), "EOH");
    CapitalsAre(Trim(tag), "EOR");
    hide Trim, AsciiUpper, ParseTag, Decode, TakeField, EndOfRecord, SameLetters, Newlines;
  }

  // ----- decoding -----

  lemma Places(a: int, b: int)
    requires 0 <= b < 64
    ensures (a * 64 + b) / 64 == a && (a * 64 + b) % 64 == b
  {
  }

  lemma DecodedTwo(bytes: seq<Byte>)
    requires FirstLength(bytes) == Some(2)
    ensures EncodeChar(FirstChar(bytes)) == bytes[..2]
  {
    Places(bytes[0] as int - 0xC0, bytes[1] as int - 0x80);
    assert bytes[..2] == [bytes[0], bytes[1]];
  }

  lemma DecodedThree(bytes: seq<Byte>)
    requires FirstLength(bytes) == Some(3)
    ensures EncodeChar(FirstChar(bytes)) == bytes[..3]
  {
    var a, b, c := bytes[0] as int - 0xE0, bytes[1] as int - 0x80, bytes[2] as int - 0x80;
    Places(a * 64 + b, c);
    Places(a, b);
    assert Three(bytes) == (a * 64 + b) * 64 + c;
    assert Three(bytes) / 4096 == Three(bytes) / 64 / 64;
    assert bytes[..3] == [bytes[0], bytes[1], bytes[2]];
  }

  lemma DecodedFour(bytes: seq<Byte>)
    requires FirstLength(bytes) == Some(4)
    ensures EncodeChar(FirstChar(bytes)) == bytes[..4]
  {
    var a, b, c, d := bytes[0] as int - 0xF0, bytes[1] as int - 0x80, bytes[2] as int - 0x80, bytes[3] as int - 0x80;
    Places((a * 64 + b) * 64 + c, d);
    Places(a * 64 + b, c);
    Places(a, b);
    assert Four(bytes) == ((a * 64 + b) * 64 + c) * 64 + d;
    assert Four(bytes) / 4096 == Four(bytes) / 64 / 64;
    assert Four(bytes) / 262_144 == Four(bytes) / 4096 / 64;
    assert bytes[..4] == [bytes[0], bytes[1], bytes[2], bytes[3]];
  }

  lemma DecodedChar(bytes: seq<Byte>)
    requires FirstLength(bytes).Some?
    ensures EncodeChar(FirstChar(bytes)) == bytes[..FirstLength(bytes).value]
  {
    match FirstLength(bytes).value
    case 1 => assert bytes[..1] == [bytes[0]];
    case 2 => DecodedTwo(bytes);
    case 3 => DecodedThree(bytes);
    case _ => DecodedFour(bytes);
  }

  /** Only what encodes a text is decoded. */
  lemma {:induction false} EncodeDecode(bytes: seq<Byte>)
    ensures Decode(bytes).Some? ==> Encode(Decode(bytes).value) == bytes
    decreases |bytes|
  {
    if bytes != [] && Decode(bytes).Some? {
      DecodedChar(bytes);
      hide EncodeChar, FirstLength, FirstChar;
      var n := FirstLength(bytes).value;
      EncodeDecode(bytes[n..]);
      var c, rest := FirstChar(bytes), Decode(bytes[n..]).value;
      assert ([c] + rest)[1..] == rest && ([c] + rest)[0] == c;
      assert bytes[..n] + bytes[n..] == bytes;
    }
  }
}
