/** Parsing what was rendered gives back every record, field by field and on its own line. */
module AdifRoundTrip {
  import opened Sums
  import opened Utf8
  import opened AdifText

  lemma Associate<T>(a: seq<T>, b: seq<T>, c: seq<T>)
    ensures a + b + c == a + (b + c)
  {
  }

  // ----- lines -----

  lemma {:induction false} NewlinesJoin(a: seq<Byte>, b: seq<Byte>)
    ensures Newlines(a + b) == Newlines(a) + Newlines(b)
  {
    if a == [] {
      assert a + b == b;
    } else {
      NewlinesJoin(a[1..], b);
      assert (a + b)[1..] == a[1..] + b;
    }
  }

  lemma TakeTagLine(st: State, tag: string, tagLine: nat, behind: seq<Byte>)
    ensures var r := TakeTag(st, tag, tagLine, behind);
            r.Ok? ==> r.value.0.line == st.line + Newlines(behind[..r.value.1])
  {
    hide Trim, AsciiUpper, ParseTag, Decode;
    assert behind[..0] == [];
  }

  /** The bytes of a tag, of its value and of the rest. */
  lemma TagNewlines(rest: seq<Byte>, n: nat, taken: nat)
    requires rest != [] && rest[0] == OPEN && n + 2 <= |rest| && rest[n + 1] == CLOSE && taken <= |rest| - n - 2
    ensures var behind := rest[n + 2..];
            Newlines(rest) == Newlines(rest[1..][..n]) + Newlines(behind[..taken]) + Newlines(behind[taken..])
  {
    var inside, behind := rest[1..][..n], rest[n + 2..];
    assert rest[1..] == inside + [CLOSE] + behind;
    assert behind == behind[..taken] + behind[taken..];
    NewlinesJoin(inside + [CLOSE], behind);
    NewlinesJoin(inside, [CLOSE]);
    NewlinesJoin(behind[..taken], behind[taken..]);
    assert Newlines([CLOSE]) == 0;
  }

  /** A tag and its value are read together, with the newlines in them. */
  lemma TagCounts(rest: seq<Byte>, st: State) returns (after: seq<Byte>, next: State)
    requires rest != [] && rest[0] == OPEN && ParseFrom(rest, st).Ok?
    ensures |after| < |rest| && ParseFrom(rest, st) == ParseFrom(after, next)
    ensures next.line + Newlines(after) == st.line + Newlines(rest)
  {
    hide TakeTag, Decode, Newlines, TagEnd;
    var n := TagEnd(rest[1..]).value;
    var inside, behind := rest[1..][..n], rest[n + 2..];
    var tagged := st.(line := st.line + Newlines(inside));
    TakeTagLine(tagged, Decode(inside).value, st.line, behind);
    var r := TakeTag(tagged, Decode(inside).value, st.line, behind);
    after, next := behind[r.value.1..], r.value.0;
    TagNewlines(rest, n, r.value.1);
  }

  /** The line counter always is one more than the newlines read so far. */
  lemma {:induction false} LineCounts(rest: seq<Byte>, st: State)
    ensures ParseFrom(rest, st).Ok? ==> ParseFrom(rest, st).value.line == st.line + Newlines(rest)
    decreases |rest|
  {
    hide TakeTag, Decode, TagEnd;
    if rest != [] && rest[0] != OPEN {
      LineCounts(rest[1..], if rest[0] == NEWLINE then st.(line := st.line + 1) else st);
    } else if rest != [] && ParseFrom(rest, st).Ok? {
      var after, next := TagCounts(rest, st);
      LineCounts(after, next);
    }
  }

  // ----- trimming and numbers -----

  lemma TrimmedEnds(s: string)
    requires s != "" && !IsSpace(s[0]) && !IsSpace(s[|s| - 1])
    ensures Trim(s) == s
  {
  }

  lemma {:induction false} TrimEndShape(s: string)
    ensures |TrimEnd(s)| <= |s| && TrimEnd(s) == s[..|TrimEnd(s)|]
    ensures TrimEnd(s) != "" ==> !IsSpace(TrimEnd(s)[|TrimEnd(s)| - 1])
  {
    if s != "" && IsSpace(s[|s| - 1]) {
      TrimEndShape(s[..|s| - 1]);
    }
  }

  lemma {:induction false} TrimStartShape(s: string)
    ensures |TrimStart(s)| <= |s|
    ensures TrimStart(s) != "" ==> !IsSpace(TrimStart(s)[0])
  {
    if s != "" && IsSpace(s[0]) {
      TrimStartShape(s[1..]);
    }
  }

  /** Trimmed text begins and ends with something else than white space. */
  lemma TrimmedShape(s: string)
    requires Trim(s) == s && s != ""
    ensures !IsSpace(s[0]) && !IsSpace(s[|s| - 1])
  {
    TrimStartShape(s);
    TrimEndShape(TrimStart(s));
  }

  lemma {:induction false} OnOneLineShape(s: string)
    ensures forall i :: 0 <= i < |OnOneLine(s)| ==> OnOneLine(s)[i] != '\n' && OnOneLine(s)[i] != '\r'
    ensures s != "" ==> OnOneLine(s) != ""
    ensures s != "" && !IsSpace(s[0]) ==> OnOneLine(s)[0] == s[0]
    ensures s != "" && !IsSpace(s[|s| - 1]) ==> OnOneLine(s)[|OnOneLine(s)| - 1] == s[|s| - 1]
  {
    if s != "" {
      if |s| >= 2 && s[0] == '\r' && s[1] == '\n' {
        OnOneLineShape(s[2..]);
      } else {
        OnOneLineShape(s[1..]);
      }
    }
  }

  lemma OnOneLineTrimmed(s: string)
    requires Trim(s) == s
    ensures Trim(OnOneLine(s)) == OnOneLine(s)
  {
    OnOneLineShape(s);
    if s != "" {
      TrimmedShape(s);
      hide OnOneLine, Trim;
      TrimmedEnds(OnOneLine(s));
    }
  }

  lemma {:induction false} DecimalShape(n: nat)
    ensures Decimal(n) != "" && forall i :: 0 <= i < |Decimal(n)| ==> IsDigit(Decimal(n)[i])
    ensures Number(Decimal(n)) == Some(n)
  {
    if n < 10 {
      assert Decimal(n)[..0] == "";
    } else {
      DecimalShape(n / 10);
      assert Decimal(n)[..|Decimal(n)| - 1] == Decimal(n / 10);
    }
  }

  // ----- tags -----

  predicate NameOk(name: string) {
    name != "" && forall i :: 0 <= i < |name| ==> IsNameChar(name[i])
  }

  lemma NormalizedStays(name: string)
    requires NameOk(name)
    ensures NormalizeFieldName(name) == name
  {
    TrimmedEnds(name);
    hide Trim;
  }

  lemma {:induction false} ColonSplits(name: string, rest: string)
    requires ':' !in name
    ensures BeforeColon(name + ":" + rest) == name && AfterColon(name + ":" + rest) == Some(rest)
  {
    if name == "" {
      assert name + ":" + rest == [':'] + rest;
    } else {
      ColonSplits(name[1..], rest);
      assert (name + ":" + rest)[1..] == name[1..] + ":" + rest;
    }
  }

  lemma {:induction false} NoColon(s: string)
    requires ':' !in s
    ensures BeforeColon(s) == s
  {
    if s != "" {
      NoColon(s[1..]);
    }
  }

  function FieldTag(name: string, length: nat): string {
    name + ":" + Decimal(length)
  }

  lemma TagParses(name: string, length: nat)
    requires NameOk(name) && length < USIZE_LIMIT
    ensures ParseTag(FieldTag(name, length)) == Some((name, length))
  {
    DecimalShape(length);
    var digits := Decimal(length);
    hide Decimal, Number;
    ColonSplits(name, digits);
    NoColon(digits);
    NormalizedStays(name);
    TrimmedEnds(digits);
    hide Trim, BeforeColon, AfterColon, NormalizeFieldName;
    assert digits[0] != '+';
  }

  /** The tag of a field is plain text that names no end of header or record. */
  lemma TagIsPlain(name: string, length: nat)
    requires NameOk(name)
    ensures var tag := FieldTag(name, length);
            && IsAscii(tag) && '>' !in tag && '\n' !in tag
            && AsciiUpper(Trim(tag)) != "EOH" && AsciiUpper(Trim(tag)) != "EOR"
  {
    DecimalShape(length);
    hide Decimal, Number;
    var tag := FieldTag(name, length);
    TrimmedEnds(tag);
    hide Trim;
    assert tag[|name|] == ':';
    assert AsciiUpper(tag)[|name|] == ':';
    assert ':' !in "EOH" && ':' !in "EOR";
  }

  lemma {:induction false} TagEndAt(tag: seq<Byte>, behind: seq<Byte>)
    requires CLOSE !in tag
    ensures TagEnd(tag + [CLOSE] + behind) == Some(|tag|)
  {
    if tag == [] {
      assert tag + [CLOSE] + behind == [CLOSE] + behind;
    } else {
      TagEndAt(tag[1..], behind);
      assert (tag + [CLOSE] + behind)[1..] == tag[1..] + [CLOSE] + behind;
      assert tag[0] in tag;
    }
  }

  lemma {:induction false} NoNewlines(bytes: seq<Byte>)
    requires NEWLINE !in bytes
    ensures Newlines(bytes) == 0
  {
    if bytes != [] {
      NoNewlines(bytes[1..]);
      assert bytes[0] in bytes;
    }
  }

  lemma TagShape(bytes: seq<Byte>, behind: seq<Byte>)
    ensures var rest := [OPEN] + bytes + [CLOSE] + behind;
            && rest != [] && rest[0] == OPEN
            && rest[1..] == bytes + [CLOSE] + behind && rest[1..][..|bytes|] == bytes && rest[|bytes| + 2..] == behind
  {
  }

  /** Reading a whole tag and its value. */
  lemma TagStep(tag: string, behind: seq<Byte>, st: State)
    requires '>' !in tag && '\n' !in tag
    ensures ParseFrom([OPEN] + Encode(tag) + [CLOSE] + behind, st) ==
            var r := TakeTag(st, tag, st.line, behind);
            if r.Err? then Err(r.line, r.problem) else ParseFrom(behind[r.value.1..], r.value.0)
  {
    var bytes := Encode(tag);
    PlainBytes(tag, '>');
    PlainBytes(tag, '\n');
    TagEndAt(bytes, behind);
    NoNewlines(bytes);
    DecodeEncode(tag);
    TagShape(bytes, behind);
    var rest := [OPEN] + bytes + [CLOSE] + behind;
    hide Encode, Decode, TakeTag, TagEnd, Newlines;
    assert st.(line := st.line + 0) == st;
    TagRead(rest, |bytes|, tag, behind, st);
  }

  lemma TagRead(rest: seq<Byte>, n: nat, tag: string, behind: seq<Byte>, st: State)
    requires rest != [] && rest[0] == OPEN && n + 2 <= |rest| && behind == rest[n + 2..]
    requires TagEnd(rest[1..]) == Some(n) && Decode(rest[1..][..n]) == Some(tag) && Newlines(rest[1..][..n]) == 0
    ensures ParseFrom(rest, st) ==
            var r := TakeTag(st, tag, st.line, behind);
            if r.Err? then Err(r.line, r.problem) else ParseFrom(behind[r.value.1..], r.value.0)
  {
    hide Decode, TakeTag, TagEnd, Newlines;
    assert st.(line := st.line + 0) == st;
  }

  /** Text outside tags only counts lines. */
  lemma {:induction false} SkipsPlain(bytes: seq<Byte>, rest: seq<Byte>, st: State)
    requires OPEN !in bytes
    ensures ParseFrom(bytes + rest, st) == ParseFrom(rest, st.(line := st.line + Newlines(bytes)))
  {
    if bytes == [] {
      assert bytes + rest == rest;
      assert st.(line := st.line + 0) == st;
    } else {
      assert bytes[0] in bytes;
      assert (bytes + rest)[1..] == bytes[1..] + rest;
      var next := if bytes[0] == NEWLINE then st.(line := st.line + 1) else st;
      SkipsPlain(bytes[1..], rest, next);
      assert next.(line := next.line + Newlines(bytes[1..])) == st.(line := st.line + Newlines(bytes));
    }
  }

  // ----- fields -----

  predicate FieldOk(name: string, value: string) {
    NameOk(name) && |Encode(OnOneLine(value))| < USIZE_LIMIT
  }

  /** What the parser makes of a value: one line without white space around it. */
  function AsRead(value: string): string {
    Trim(OnOneLine(value))
  }

  /** A value that was trimmed survives but for its line ends. */
  lemma TrimmedSurvives(value: string)
    requires Trim(value) == value
    ensures AsRead(value) == OnOneLine(value)
    ensures '\n' !in value && '\r' !in value ==> AsRead(value) == value
  {
    OnOneLineTrimmed(value);
    if '\n' !in value && '\r' !in value { OneLineStays(value); }
  }

  lemma FieldBytes(name: string, value: string)
    requires NameOk(name)
    ensures var line := OnOneLine(value);
            Encode(SerializeField(name, value)) ==
            [OPEN] + Encode(FieldTag(name, |Encode(line)|)) + [CLOSE] + Encode(line)
  {
    NormalizedStays(name);
    var line := OnOneLine(value);
    var tag := FieldTag(name, |Encode(line)|);
    hide NormalizeFieldName, OnOneLine, Decimal;
    assert SerializeField(name, value) == "<" + tag + ">" + line;
    EncodeJoin("<" + tag + ">", line);
    EncodeJoin("<" + tag, ">");
    EncodeJoin("<", tag);
    assert Encode("<") == [OPEN] && Encode(">") == [CLOSE];
  }

  lemma TakeValue(st: State, tag: string, name: string, length: nat, line: string, behind: seq<Byte>)
    requires AsciiUpper(Trim(tag)) != "EOH" && AsciiUpper(Trim(tag)) != "EOR"
    requires ParseTag(tag) == Some((name, length)) && name != "" && length <= |behind|
    requires Decode(behind[..length]) == Some(line) && Newlines(behind[..length]) == 0
    ensures TakeTag(st, tag, st.line, behind) == Ok((TakeField(st, st.line, name, Trim(line)), length))
  {
    hide Trim, ParseTag, AsciiUpper, Decode, Newlines, TakeField;
    assert st.(line := st.line + 0) == st;
  }

  lemma FieldTake(name: string, value: string, rest: seq<Byte>, st: State)
    requires FieldOk(name, value)
    ensures var line := OnOneLine(value);
            var length := |Encode(line)|;
            TakeTag(st, FieldTag(name, length), st.line, Encode(line) + rest) ==
            Ok((TakeField(st, st.line, name, Trim(line)), length))
  {
    var line := OnOneLine(value);
    var length := |Encode(line)|;
    TagParses(name, length);
    TagIsPlain(name, length);
    OnOneLineShape(value);
    PlainBytes(line, '\n');
    NoNewlines(Encode(line));
    DecodeEncode(line);
    hide FieldTag, OnOneLine, Trim, ParseTag, AsciiUpper, Encode, Decode, Newlines, TakeTag, TakeField;
    assert (Encode(line) + rest)[..length] == Encode(line);
    TakeValue(st, FieldTag(name, length), name, length, line, Encode(line) + rest);
  }

  /** A rendered field is read back trimmed, on the line where it begins. */
  lemma FieldStep(name: string, value: string, rest: seq<Byte>, st: State)
    requires FieldOk(name, value)
    ensures ParseFrom(Encode(SerializeField(name, value)) + rest, st) ==
            ParseFrom(rest, TakeField(st, st.line, name, AsRead(value)))
  {
    var line := OnOneLine(value);
    var length := |Encode(line)|;
    var tag := FieldTag(name, length);
    FieldBytes(name, value);
    TagIsPlain(name, length);
    FieldTake(name, value, rest, st);
    hide FieldTag, OnOneLine, Trim, AsciiUpper, Encode, SerializeField, ParseFrom, TakeField, TakeTag;
    var behind := Encode(line) + rest;
    assert behind[length..] == rest;
    TagStep(tag, behind, st);
    Associate([OPEN] + Encode(tag) + [CLOSE], Encode(line), rest);
  }

  function AfterFields(st: State, fields: seq<(string, string)>): State {
    if fields == [] then st
    else var before := AfterFields(st, fields[..|fields| - 1]);
         TakeField(before, before.line, fields[|fields| - 1].0, AsRead(fields[|fields| - 1].1))
  }

  predicate FieldsOk(fields: seq<(string, string)>) {
    forall i :: 0 <= i < |fields| ==> FieldOk(fields[i].0, fields[i].1)
  }

  lemma {:induction false} FieldsStep(fields: seq<(string, string)>, rest: seq<Byte>, st: State)
    requires FieldsOk(fields)
    ensures ParseFrom(Encode(RenderFields(fields)) + rest, st) == ParseFrom(rest, AfterFields(st, fields))
    decreases |fields|
  {
    hide FieldOk, SerializeField, TakeField, ParseFrom, OnOneLine;
    if fields == [] {
      assert Encode("") + rest == rest;
    } else {
      var init, last := fields[..|fields| - 1], fields[|fields| - 1];
      var field := Encode(SerializeField(last.0, last.1));
      EncodeJoin(RenderFields(init), SerializeField(last.0, last.1));
      hide Encode, FieldsOk;
      Associate(Encode(RenderFields(init)), field, rest);
      LastFieldOk(fields);
      FieldsStep(init, field + rest, st);
      FieldStep(last.0, last.1, rest, AfterFields(st, init));
    }
  }

  lemma LastFieldOk(fields: seq<(string, string)>)
    requires FieldsOk(fields) && fields != []
    ensures FieldsOk(fields[..|fields| - 1]) && FieldOk(fields[|fields| - 1].0, fields[|fields| - 1].1)
  {
  }

  // ----- records -----

  function Cleaned(fields: Fields): Fields {
    map k | k in fields :: AsRead(fields[k])
  }

  function FieldsOf(fields: seq<(string, string)>): Fields {
    if fields == [] then map[]
    else FieldsOf(fields[..|fields| - 1])[fields[|fields| - 1].0 := AsRead(fields[|fields| - 1].1)]
  }

  lemma {:induction false} FieldsOfHolds(fields: seq<(string, string)>, k: string)
    ensures k in FieldsOf(fields) <==> exists i :: 0 <= i < |fields| && fields[i].0 == k
    ensures k in FieldsOf(fields) ==> exists i :: 0 <= i < |fields| && fields[i].0 == k && FieldsOf(fields)[k] == AsRead(fields[i].1)
  {
    if fields != [] {
      FieldsOfHolds(fields[..|fields| - 1], k);
      var last := fields[|fields| - 1];
      if k == last.0 {
        assert fields[|fields| - 1].0 == k;
      }
    }
  }

  lemma ListedFields(order: seq<(string, string)>, fields: Fields)
    requires ListsFields(order, fields)
    ensures FieldsOf(order) == Cleaned(fields)
  {
    forall k ensures k in FieldsOf(order) <==> k in fields {
      FieldsOfHolds(order, k);
      if k in fields {
        var i :| 0 <= i < |order| && order[i] == (k, fields[k]);
      }
    }
    forall k | k in fields ensures FieldsOf(order)[k] == Cleaned(fields)[k] {
      FieldsOfHolds(order, k);
    }
  }

  predicate BetweenRecords(st: State) {
    !st.inHeader && st.current == map[] && st.currentLine == None
  }

  lemma {:induction false} FieldsOfRecord(st: State, fields: seq<(string, string)>)
    requires BetweenRecords(st)
    ensures AfterFields(st, fields) ==
            st.(current := FieldsOf(fields), currentLine := if fields == [] then None else Some(st.line))
  {
    if fields != [] {
      FieldsOfRecord(st, fields[..|fields| - 1]);
      NonEmpty(fields[..|fields| - 1]);
    }
  }

  lemma NonEmpty(fields: seq<(string, string)>)
    ensures FieldsOf(fields) == map[] <==> fields == []
  {
    if fields != [] {
      assert fields[|fields| - 1].0 in FieldsOf(fields);
    }
  }

  lemma EndTagBytes(name: string, rest: seq<Byte>)
    ensures Encode("<" + name + ">\n") + rest == [OPEN] + Encode(name) + [CLOSE] + ([NEWLINE] + rest)
  {
    assert "<" + name + ">\n" == "<" + name + ">" + "\n";
    EncodeJoin("<" + name + ">", "\n");
    EncodeJoin("<" + name, ">");
    EncodeJoin("<", name);
    assert Encode("<") == [OPEN] && Encode(">") == [CLOSE] && Encode("\n") == [NEWLINE];
    hide Encode;
    Associate([OPEN] + Encode(name) + [CLOSE], [NEWLINE], rest);
  }

  lemma EndTagName(name: string)
    requires name in {"EOH", "EOR"}
    ensures '>' !in name && '\n' !in name && AsciiUpper(Trim(name)) == name
  {
    TrimmedEnds(name);
    hide Trim;
    assert AsciiUpper(name) == name;
  }

  lemma EndTagTake(name: string, behind: seq<Byte>, st: State)
    requires name in {"EOH", "EOR"}
    ensures TakeTag(st, name, st.line, behind) ==
            Ok((if name == "EOH" then st.(inHeader := false, pending := map[], pendingLine := None)
                else EndOfRecord(st, st.line), 0))
  {
    EndTagName(name);
    hide Trim, AsciiUpper, EndOfRecord, ParseTag, Decode;
  }

  lemma EndTagStep(name: string, rest: seq<Byte>, st: State)
    requires name in {"EOH", "EOR"}
    ensures ParseFrom(Encode("<" + name + ">\n") + rest, st) ==
            var next := if name == "EOH" then st.(inHeader := false, pending := map[], pendingLine := None)
                        else EndOfRecord(st, st.line);
            ParseFrom(rest, next.(line := next.line + 1))
  {
    EndTagBytes(name, rest);
    EndTagName(name);
    var behind := [NEWLINE] + rest;
    EndTagTake(name, behind, st);
    TagStep(name, behind, st);
    hide Trim, AsciiUpper, Encode, EndOfRecord, TakeTag;
    assert behind[0..] == behind;
    NewlineRead(rest, TakeTag(st, name, st.line, behind).value.0);
  }

  lemma NewlineRead(rest: seq<Byte>, st: State)
    ensures ParseFrom([NEWLINE] + rest, st) == ParseFrom(rest, st.(line := st.line + 1))
  {
    assert ([NEWLINE] + rest)[1..] == rest;
  }

  /** One rendered record is read back with its fields and its line. */
  lemma RecordStep(fields: seq<(string, string)>, rest: seq<Byte>, st: State)
    requires FieldsOk(fields) && fields != [] && BetweenRecords(st)
    ensures ParseFrom(Encode(RenderFields(fields) + "<EOR>\n") + rest, st) ==
            ParseFrom(rest, st.(line := st.line + 1, records := st.records + [Record(st.line, FieldsOf(fields))]))
  {
    hide FieldOk, FieldsOk, ParseFrom, FieldsOf, Encode, RenderFields, AfterFields;
    var ending := Encode("<EOR>\n");
    assert "<" + "EOR" + ">\n" == "<EOR>\n";
    EncodeJoin(RenderFields(fields), "<EOR>\n");
    Associate(Encode(RenderFields(fields)), ending, rest);
    FieldsStep(fields, ending + rest, st);
    FieldsOfRecord(st, fields);
    NonEmpty(fields);
    EndTagStep("EOR", rest, AfterFields(st, fields));
  }

  predicate RecordsOk(records: seq<seq<(string, string)>>) {
    forall i :: 0 <= i < |records| ==> records[i] != [] && FieldsOk(records[i])
  }

  function RecordsFrom(line: nat, records: seq<seq<(string, string)>>): seq<Record> {
    seq(|records|, i requires 0 <= i < |records| => Record(line + i, FieldsOf(records[i])))
  }

  lemma {:induction false} RecordsStep(records: seq<seq<(string, string)>>, rest: seq<Byte>, st: State)
    requires RecordsOk(records) && BetweenRecords(st)
    ensures ParseFrom(Encode(RenderRecords(records)) + rest, st) ==
            ParseFrom(rest, st.(line := st.line + |records|, records := st.records + RecordsFrom(st.line, records)))
    decreases |records|
  {
    hide FieldsOk, ParseFrom, FieldsOf, RenderFields;
    if records == [] {
      assert Encode("") + rest == rest;
      assert st.records + RecordsFrom(st.line, records) == st.records;
    } else {
      var init, last := records[..|records| - 1], records[|records| - 1];
      var text := RenderFields(last) + "<EOR>\n";
      assert RenderRecords(records) == RenderRecords(init) + text;
      EncodeJoin(RenderRecords(init), text);
      hide Encode, RenderRecords;
      Associate(Encode(RenderRecords(init)), Encode(text), rest);
      RecordsStep(init, Encode(text) + rest, st);
      var before := st.(line := st.line + |init|, records := st.records + RecordsFrom(st.line, init));
      RecordStep(last, rest, before);
      assert before.records + [Record(before.line, FieldsOf(last))] == st.records + RecordsFrom(st.line, records);
    }
  }

  // ----- the header -----

  predicate VersionOk(version: string) {
    |Encode(OnOneLine(version))| < USIZE_LIMIT
  }

  lemma HeaderFieldOk(name: string, value: string)
    requires NameOk(name) && IsAscii(value) && value != "" && |value| < 10
    requires '\n' !in value && '\r' !in value
    ensures FieldOk(name, value)
  {
    OneLineStays(value);
    EncodeAscii(value);
  }

  lemma {:induction false} OneLineStays(s: string)
    requires '\n' !in s && '\r' !in s
    ensures OnOneLine(s) == s
  {
    if s != "" {
      OneLineStays(s[1..]);
    }
  }

  function HeaderFields(version: string): seq<(string, string)> {
    [("ADIF_VER", "3.1.0"), ("PROGRAMID", "Log73"), ("PROGRAMVERSION", version)]
  }

  /** The header leaves the parser on line 3, between records. */
  lemma HeaderStep(version: string, rest: seq<Byte>)
    requires VersionOk(version)
    ensures exists st :: BetweenRecords(st) && st.line == 3 && st.records == []
                         && ParseFrom(Encode(Header(version)) + rest, START) == ParseFrom(rest, st)
  {
    var fields := HeaderFields(version);
    HeaderText(version);
    HeaderFieldsOk(version);
    TitleBytes();
    hide FieldsOk, ParseFrom, RenderFields, VersionOk, Title, HeaderFields, Encode, Header;
    var ending := "<" + "EOH" + ">\n";
    EncodeJoin(Title() + RenderFields(fields), ending);
    EncodeJoin(Title(), RenderFields(fields));
    var tail := Encode(ending) + rest;
    Associate(Encode(Title()) + Encode(RenderFields(fields)), Encode(ending), rest);
    Associate(Encode(Title()), Encode(RenderFields(fields)), tail);
    SkipsPlain(Encode(Title()), Encode(RenderFields(fields)) + tail, START);
    var second := START.(line := 2);
    FieldsStep(fields, tail, second);
    HeaderState(second, fields);
    var before := AfterFields(second, fields);
    hide AfterFields, Newlines;
    EndTagStep("EOH", rest, before);
    var st := before.(inHeader := false, pending := map[], pendingLine := None, line := before.line + 1);
    assert BetweenRecords(st) && st.line == 3;
  }

  lemma HeaderText(version: string)
    ensures Header(version) == Title() + RenderFields(HeaderFields(version)) + ("<" + "EOH" + ">\n")
  {
    hide SerializeField, Title;
    var fields := HeaderFields(version);
    var a, b, c := SerializeField("ADIF_VER", "3.1.0"), SerializeField("PROGRAMID", "Log73"), SerializeField("PROGRAMVERSION", version);
    RenderLast(fields);
    RenderLast(fields[..2]);
    assert fields[..2][..1] == fields[..1];
    RenderLast(fields[..1]);
    assert fields[..1][..0] == [];
    assert RenderFields(fields) == "" + a + b + c;
    assert "" + a + b + c == a + b + c;
    assert "<" + "EOH" + ">\n" == "<EOH>\n";
    Associate(Title(), a + b, c);
    Associate(Title(), a, b);
  }

  lemma RenderLast(fields: seq<(string, string)>)
    requires fields != []
    ensures RenderFields(fields) ==
            RenderFields(fields[..|fields| - 1]) + SerializeField(fields[|fields| - 1].0, fields[|fields| - 1].1)
  {
  }

  lemma VersionFieldOk()
    ensures FieldOk("ADIF_VER", "3.1.0")
  {
    var value := "3.1.0";
    assert IsAscii(value) && '\n' !in value && '\r' !in value;
    HeaderFieldOk("ADIF_VER", value);
  }

  lemma ProgramFieldOk()
    ensures FieldOk("PROGRAMID", "Log73")
  {
    var value := "Log73";
    assert IsAscii(value) && '\n' !in value && '\r' !in value;
    HeaderFieldOk("PROGRAMID", value);
  }

  lemma HeaderFieldsOk(version: string)
    requires VersionOk(version)
    ensures FieldsOk(HeaderFields(version))
  {
    VersionFieldOk();
    ProgramFieldOk();
    ProgramVersionOk(version);
    hide FieldOk, VersionOk;
    var fields := HeaderFields(version);
    assert |fields| == 3 && fields[0] == ("ADIF_VER", "3.1.0") && fields[1] == ("PROGRAMID", "Log73");
  }

  lemma ProgramVersionOk(version: string)
    requires VersionOk(version)
    ensures FieldOk("PROGRAMVERSION", version)
  {
    hide Trim, OnOneLine, Encode;
  }

  lemma WordsArePlain()
    ensures '<' !in TitleWords() && '\n' !in TitleWords()
  {
  }

  lemma TitleBytes()
    ensures OPEN !in Encode(Title()) && Newlines(Encode(Title())) == 1
  {
    WordsArePlain();
    hide TitleWords;
    var words := TitleWords();
    PlainBytes(words, '<');
    PlainBytes(words, '\n');
    EncodeJoin(words, "\n");
    assert Encode("\n") == [NEWLINE];
    hide Encode;
    NoNewlines(Encode(words));
    NewlinesJoin(Encode(words), [NEWLINE]);
    assert Newlines([NEWLINE]) == 1;
  }

  lemma {:induction false} HeaderState(st: State, fields: seq<(string, string)>)
    requires st.inHeader
    ensures var t := AfterFields(st, fields);
            t == st.(pending := t.pending, pendingLine := t.pendingLine)
  {
    if fields != [] {
      HeaderState(st, fields[..|fields| - 1]);
    }
  }

  // ----- the round trip -----

  /** What the exporter hands over: normalized names, and values of a size a machine can hold. */
  predicate ContactOk(fields: Fields) {
    fields != map[] && forall k :: k in fields ==> FieldOk(k, fields[k])
  }

  /**
   Parsing a rendered log gives one record for each contact, in order, record i on line 3 + i, each with
   exactly the fields of its contact. Line ends in a value have become spaces, and white space around it
   is gone; trimmed values without line ends are unchanged, whatever they contain (see TrimmedSurvives).
   */
  lemma RoundTrip(version: string, contacts: seq<Fields>, orders: seq<seq<(string, string)>>)
    requires VersionOk(version) && |orders| == |contacts|
    requires forall i :: 0 <= i < |contacts| ==> ContactOk(contacts[i]) && ListsFields(orders[i], contacts[i])
    ensures ParseRecords(Header(version) + RenderRecords(orders)) ==
            Ok(seq(|contacts|, i requires 0 <= i < |contacts| => Record(3 + i, Cleaned(contacts[i]))))
  {
    OrdersOk(contacts, orders);
    ReadLog(version, orders);
    ListedRecords(contacts, orders);
    hide Header, RenderRecords, VersionOk, ContactOk, RecordsOk, ListsFields, RecordsFrom, Cleaned, ParseRecords;
  }

  lemma ListedRecords(contacts: seq<Fields>, orders: seq<seq<(string, string)>>)
    requires |orders| == |contacts| && forall i :: 0 <= i < |contacts| ==> ListsFields(orders[i], contacts[i])
    ensures RecordsFrom(3, orders) ==
            seq(|contacts|, i requires 0 <= i < |contacts| => Record(3 + i, Cleaned(contacts[i])))
  {
    hide ListsFields, FieldsOf, Cleaned;
    forall i | 0 <= i < |contacts| ensures FieldsOf(orders[i]) == Cleaned(contacts[i]) {
      ListedFields(orders[i], contacts[i]);
    }
  }

  lemma ReadLog(version: string, orders: seq<seq<(string, string)>>)
    requires VersionOk(version) && RecordsOk(orders)
    ensures ParseRecords(Header(version) + RenderRecords(orders)) == Ok(RecordsFrom(3, orders))
  {
    var text := Encode(RenderRecords(orders));
    EncodeJoin(Header(version), RenderRecords(orders));
    hide Header, RenderRecords, Encode, VersionOk, RecordsOk, RecordsFrom;
    HeaderStep(version, text);
    var st :| BetweenRecords(st) && st.line == 3 && st.records == []
              && ParseFrom(Encode(Header(version)) + text, START) == ParseFrom(text, st);
    assert text + [] == text;
    RecordsStep(orders, [], st);
    assert [] + RecordsFrom(3, orders) == RecordsFrom(3, orders);
  }

  lemma OrdersOk(contacts: seq<Fields>, orders: seq<seq<(string, string)>>)
    requires |orders| == |contacts|
    requires forall i :: 0 <= i < |contacts| ==> ContactOk(contacts[i]) && ListsFields(orders[i], contacts[i])
    ensures RecordsOk(orders)
  {
    hide FieldOk;
    forall i | 0 <= i < |orders| ensures orders[i] != [] && FieldsOk(orders[i]) {
      var k :| k in contacts[i];
      assert (k, contacts[i][k]) in orders[i];
    }
  }
}
