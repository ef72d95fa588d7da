/** Writing and reading ADIF files: the loops of the exporter and of the parser. */
module AdifFile {
  import opened Sums
  import opened Utf8
  import opened AdifText
  import opened AdifRoundTrip
  import opened LogPages
  import LogCache

  const PREFERRED_FIELD_ORDER: seq<string> := [
    "QSO_DATE", "TIME_ON", "STATION_CALLSIGN", "OPERATOR", "CALL", "BAND", "FREQ", "MODE", "RST_SENT", "STX",
    "STX_STRING", "MY_STATE", "MY_CNTY", "MY_ARRL_SECT", "MY_GRIDSQUARE", "MY_CQ_ZONE", "RST_RCVD", "SRX",
    "SRX_STRING", "STATE", "CNTY", "ARRL_SECT", "GRIDSQUARE", "CQZ", "DXCC", "TX_PWR"]

  // ----- writing -----

  /** The keys of a list that a record has, in the order of the list, each once. */
  function Present(keys: seq<string>, fields: Fields): seq<string> {
    if keys == [] then []
    else
      var before := Present(keys[..|keys| - 1], fields);
      var key := keys[|keys| - 1];
      if key in fields && key !in before then before + [key] else before
  }

  function KeysOf(ordered: seq<(string, string)>): (keys: seq<string>)
    ensures |keys| == |ordered| && forall i :: 0 <= i < |keys| ==> keys[i] == ordered[i].0
  {
    seq(|ordered|, i requires 0 <= i < |ordered| => ordered[i].0)
  }

  predicate Ascending(keys: seq<string>) {
    forall i, j :: 0 <= i < j < |keys| ==> keys[i] != keys[j] && AtMost(keys[i], keys[j])
  }

  /** The listed fields are those of the record that are no longer remaining. */
  ghost predicate Taken(ordered: seq<(string, string)>, remaining: Fields, fields: Fields) {
    && (forall k :: k in remaining ==> k in fields && remaining[k] == fields[k])
    && ListsFields(ordered, fields - remaining.Keys)
  }

  lemma TakeOne(ordered: seq<(string, string)>, remaining: Fields, fields: Fields, key: string)
    requires Taken(ordered, remaining, fields) && key in remaining
    ensures Taken(ordered + [(key, remaining[key])], remaining - {key}, fields)
    ensures KeysOf(ordered + [(key, remaining[key])]) == KeysOf(ordered) + [key]
  {
    var next := ordered + [(key, remaining[key])];
    var listed := fields - (remaining - {key}).Keys;
    assert next[|ordered|] == (key, remaining[key]);
    forall k | k in listed ensures (k, listed[k]) in next {
      if k != key {
        var before := fields - remaining.Keys;
        assert k in before && before[k] == fields[k];
        var i :| 0 <= i < |ordered| && ordered[i] == (k, before[k]);
        assert next[i] == ordered[i];
      }
    }
  }

  lemma NothingTaken(fields: Fields)
    ensures Taken([], fields, fields)
  {
  }

  lemma AllTaken(ordered: seq<(string, string)>, fields: Fields)
    requires Taken(ordered, map[], fields)
    ensures ListsFields(ordered, fields)
  {
    var none: Fields := map[];
    assert fields - none.Keys == fields;
  }

  function KeySet(keys: seq<string>): set<string> {
    set k | k in keys
  }

  /** Moves the fields of some keys, as far as they remain, in the order of the keys. */
  method TakeListed(keys: seq<string>, fields: Fields) returns (ordered: seq<(string, string)>, remaining: Fields)
    ensures Taken(ordered, remaining, fields)
    ensures KeysOf(ordered) == Present(keys, fields)
  {
    hide Taken;
    ordered, remaining := [], fields;
    NothingTaken(fields);
    for i := 0 to |keys|
      invariant Taken(ordered, remaining, fields)
      invariant KeysOf(ordered) == Present(keys[..i], fields)
      invariant remaining.Keys == fields.Keys - KeySet(KeysOf(ordered))
    {
      assert keys[..i + 1][..i] == keys[..i];
      var key := keys[i];
      if key in remaining {
        TakeOne(ordered, remaining, fields, key);
        ordered := ordered + [(key, remaining[key])];
        remaining := remaining - {key};
      }
    }
    assert keys[..|keys|] == keys;
  }

  /** The preferred fields first, in their order, and then the others by name. */
  method OrderedFields(fields: Fields) returns (ordered: seq<(string, string)>, ghost others: seq<string>)
    ensures ListsFields(ordered, fields)
    ensures KeysOf(ordered) == Present(PREFERRED_FIELD_ORDER, fields) + others && Ascending(others)
  {
    hide Taken, ListsFields, Present;
    var remaining;
    ordered, remaining := TakeListed(PREFERRED_FIELD_ORDER, fields);
    others := [];
    while remaining != map[]
      invariant Taken(ordered, remaining, fields)
      invariant KeysOf(ordered) == Present(PREFERRED_FIELD_ORDER, fields) + others
      invariant Ascending(others) && forall i, k :: 0 <= i < |others| && k in remaining ==> others[i] != k && AtMost(others[i], k)
      decreases |remaining|
    {
      var key := LogCache.Least(remaining.Keys);
      TakeOne(ordered, remaining, fields, key);
      ordered := ordered + [(key, remaining[key])];
      others := others + [key];
      assert (remaining - {key}).Keys == remaining.Keys - {key};
      remaining := remaining - {key};
    }
    AllTaken(ordered, fields);
  }

  /** Where a key stands in a list; behind its end if it is not in there. */
  function Rank(keys: seq<string>, key: string): (r: nat)
    ensures r <= |keys|
  {
    if keys == [] || keys[0] == key then 0 else 1 + Rank(keys[1..], key)
  }

  lemma {:induction false} RankIs(keys: seq<string>, n: nat, key: string)
    requires n <= |keys|
    ensures Rank(keys, key) < n <==> key in keys[..n]
    ensures n < |keys| && keys[n] == key && key !in keys[..n] ==> Rank(keys, key) == n
  {
    if n > 0 {
      RankIs(keys[1..], n - 1, key);
      assert keys[..n] == [keys[0]] + keys[1..][..n - 1];
    }
  }

  /** The fields of a record as they are exported: the preferred ones in their order, then the others by name. */
  ghost predicate InExportOrder(order: seq<(string, string)>) {
    forall i, j :: 0 <= i < j < |order| ==>
      var a, b := Rank(PREFERRED_FIELD_ORDER, order[i].0), Rank(PREFERRED_FIELD_ORDER, order[j].0);
      a < b || (a == b == |PREFERRED_FIELD_ORDER| && AtMost(order[i].0, order[j].0))
  }

  lemma {:induction false} PresentRanks(keys: seq<string>, n: nat, fields: Fields)
    requires n <= |keys|
    ensures var present := Present(keys[..n], fields);
            && (forall i, j :: 0 <= i < j < |present| ==> Rank(keys, present[i]) < Rank(keys, present[j]))
            && (forall k :: k in present <==> k in fields && k in keys[..n])
  {
    if n > 0 {
      PresentRanks(keys, n - 1, fields);
      assert keys[..n][..n - 1] == keys[..n - 1];
      assert keys[..n] == keys[..n - 1] + [keys[n - 1]];
      var before := Present(keys[..n - 1], fields);
      forall k | k in before ensures Rank(keys, k) < n - 1 { RankIs(keys, n - 1, k); }
      RankIs(keys, n - 1, keys[n - 1]);
      var present := Present(keys[..n], fields);
      assert forall i :: 0 <= i < |before| ==> before[i] in before;
    } else {
      assert keys[..0] == [];
    }
  }

  lemma PreferredComeFirst(order: seq<(string, string)>, fields: Fields, others: seq<string>)
    requires ListsFields(order, fields) && Ascending(others)
    requires KeysOf(order) == Present(PREFERRED_FIELD_ORDER, fields) + others
    ensures InExportOrder(order)
  {
    var keys := PREFERRED_FIELD_ORDER;
    PresentRanks(keys, |keys|, fields);
    assert keys[..|keys|] == keys;
    var present := Present(keys, fields);
    OthersAreNot(keys, order, fields, present, others);
    hide Present, Rank, Ascending, KeysOf;
    assert Ascending(others);
    OrderOfParts(order, present, others);
  }

  lemma OthersAreNot(keys: seq<string>, order: seq<(string, string)>, fields: Fields, present: seq<string>, others: seq<string>)
    requires ListsFields(order, fields) && KeysOf(order) == present + others
    requires forall k :: k in present <==> k in fields && k in keys
    ensures forall i :: 0 <= i < |others| ==> Rank(keys, others[i]) == |keys|
    ensures forall i :: 0 <= i < |present| ==> Rank(keys, present[i]) < |keys|
  {
    assert keys[..|keys|] == keys;
    hide Rank;
    forall i | 0 <= i < |others| ensures Rank(keys, others[i]) == |keys| {
      NotAmong(order, fields, present, others, i);
      RankIs(keys, |keys|, others[i]);
    }
    forall i | 0 <= i < |present| ensures Rank(keys, present[i]) < |keys| {
      assert present[i] in present;
      RankIs(keys, |keys|, present[i]);
    }
  }

  lemma NotAmong(order: seq<(string, string)>, fields: Fields, present: seq<string>, others: seq<string>, i: nat)
    requires ListsFields(order, fields) && KeysOf(order) == present + others && i < |others|
    ensures others[i] in fields && others[i] !in present
  {
    assert KeysOf(order)[|present| + i] == order[|present| + i].0;
    forall m | 0 <= m < |present| ensures present[m] != others[i] { assert KeysOf(order)[m] == order[m].0; }
  }

  lemma OrderOfParts(order: seq<(string, string)>, present: seq<string>, others: seq<string>)
    requires KeysOf(order) == present + others && Ascending(others)
    requires forall i, j :: 0 <= i < j < |present| ==>
               Rank(PREFERRED_FIELD_ORDER, present[i]) < Rank(PREFERRED_FIELD_ORDER, present[j])
    requires forall i :: 0 <= i < |others| ==> Rank(PREFERRED_FIELD_ORDER, others[i]) == |PREFERRED_FIELD_ORDER|
    requires forall i :: 0 <= i < |present| ==> Rank(PREFERRED_FIELD_ORDER, present[i]) < |PREFERRED_FIELD_ORDER|
    ensures InExportOrder(order)
  {
    hide Rank;
    forall i | 0 <= i < |order| ensures order[i].0 == if i < |present| then present[i] else others[i - |present|] {
      assert KeysOf(order)[i] == order[i].0;
    }
  }

  /** Renders the records of a log behind a header. */
  method RenderLog(version: string, contacts: seq<Fields>) returns (text: string, ghost orders: seq<seq<(string, string)>>)
    ensures |orders| == |contacts|
    ensures forall i :: 0 <= i < |contacts| ==> ListsFields(orders[i], contacts[i]) && InExportOrder(orders[i])
    ensures text == Header(version) + RenderRecords(orders)
  {
    hide ListsFields, SerializeField, Header, InExportOrder, Present, Ascending;
    text, orders := Header(version), [];
    for i := 0 to |contacts|
      invariant |orders| == i
      invariant forall j :: 0 <= j < i ==> ListsFields(orders[j], contacts[j]) && InExportOrder(orders[j])
      invariant text == Header(version) + RenderRecords(orders)
    {
      var fields, others := OrderedFields(contacts[i]);
      PreferredComeFirst(fields, contacts[i], others);
      ghost var before := text;
      var record := RenderFieldsOf(fields);
      text := text + record + "<EOR>\n";
      ghost var next := orders + [fields];
      assert next[..|next| - 1] == orders;
      assert text == Header(version) + RenderRecords(next);
      orders := next;
    }
  }

  method RenderFieldsOf(fields: seq<(string, string)>) returns (text: string)
    ensures text == RenderFields(fields)
  {
    hide SerializeField;
    text := "";
    for i := 0 to |fields|
      invariant text == RenderFields(fields[..i])
    {
      assert fields[..i + 1][..i] == fields[..i];
      text := text + SerializeField(fields[i].0, fields[i].1);
    }
    assert fields[..|fields|] == fields;
  }

  // ----- reading -----

  lemma {:induction false} NoTagEnd(bytes: seq<Byte>)
    requires CLOSE !in bytes
    ensures TagEnd(bytes) == None
  {
    if bytes != [] {
      NoTagEnd(bytes[1..]);
      assert bytes[0] in bytes;
    }
  }

  /** How the parse goes on after a tag. */
  function AfterTag(inside: seq<Byte>, behind: seq<Byte>, st: State): Result<State> {
    var tag := Decode(inside);
    if tag.None? then Err(st.line, TagNotUtf8) else
      var r := TakeTag(st.(line := st.line + Newlines(inside)), tag.value, st.line, behind);
      if r.Err? then Err(r.line, r.problem) else ParseFrom(behind[r.value.1..], r.value.0)
  }

  /** What ParseFrom makes of a tag between two places of the file. */
  lemma TagAt(bytes: seq<Byte>, start: nat, end: nat, st: State)
    requires start < end < |bytes| && bytes[start] == OPEN && bytes[end] == CLOSE && CLOSE !in bytes[start + 1..end]
    ensures ParseFrom(bytes[start..], st) == AfterTag(bytes[start + 1..end], bytes[end + 1..], st)
  {
    TagShapeAt(bytes, start, end);
    hide AfterTag, TagEnd, ParseFrom;
    TagUnfolds(bytes[start..], end - start - 1, st);
  }

  lemma TagShapeAt(bytes: seq<Byte>, start: nat, end: nat)
    requires start < end < |bytes| && bytes[start] == OPEN && bytes[end] == CLOSE && CLOSE !in bytes[start + 1..end]
    ensures var rest := bytes[start..];
            var n := end - start - 1;
            && n + 2 <= |rest| && rest[0] == OPEN && TagEnd(rest[1..]) == Some(n)
            && rest[1..][..n] == bytes[start + 1..end] && rest[n + 2..] == bytes[end + 1..]
  {
    var rest := bytes[start..];
    var inside, behind := bytes[start + 1..end], bytes[end + 1..];
    TagEndAt(inside, behind);
    hide TagEnd;
    assert rest[1..] == inside + [CLOSE] + behind;
  }

  lemma TagUnfolds(rest: seq<Byte>, n: nat, st: State)
    requires rest != [] && rest[0] == OPEN && TagEnd(rest[1..]) == Some(n) && n + 2 <= |rest|
    ensures ParseFrom(rest, st) == AfterTag(rest[1..][..n], rest[n + 2..], st)
  {
    hide TakeTag, Decode, TagEnd, Newlines;
  }

  lemma OpenTag(bytes: seq<Byte>, start: nat, st: State)
    requires start < |bytes| && bytes[start] == OPEN && CLOSE !in bytes[start + 1..]
    ensures ParseFrom(bytes[start..], st) == Err(st.line, UnterminatedTag)
  {
    NoTagEnd(bytes[start + 1..]);
    assert bytes[start..][1..] == bytes[start + 1..];
  }

  /** The end of the tag that begins before `start`, or of the file; and the lines passed on the way. */
  method FindTagEnd(bytes: seq<Byte>, start: nat, tagLine: nat) returns (end: nat, line: nat)
    requires start <= |bytes|
    ensures start <= end <= |bytes| && CLOSE !in bytes[start..end] && (end < |bytes| ==> bytes[end] == CLOSE)
    ensures line == tagLine + Newlines(bytes[start..end])
  {
    end, line := start, tagLine;
    while end < |bytes| && bytes[end] != CLOSE
      invariant start <= end <= |bytes| && CLOSE !in bytes[start..end]
      invariant line == tagLine + Newlines(bytes[start..end])
    {
      assert bytes[start..end + 1] == bytes[start..end] + [bytes[end]];
      NewlinesJoin(bytes[start..end], [bytes[end]]);
      assert Newlines([bytes[end]]) == if bytes[end] == NEWLINE then 1 else 0;
      if bytes[end] == NEWLINE {
        line := line + 1;
      }
      end := end + 1;
    }
  }

  /** Reads the records of a file, byte by byte. */
  method ParseFile(text: string) returns (r: Result<seq<Record>>)
    ensures r == ParseRecords(text)
  {
    hide TakeTag, Encode, Decode, Newlines, TagEnd, Finish, ParseFrom;
    var bytes := Encode(text);
    var index := 0;
    var st := START;
    assert bytes[0..] == bytes;
    while index < |bytes|
      invariant 0 <= index <= |bytes|
      invariant ParseFrom(bytes[index..], st) == ParseFrom(bytes, START)
    {
      if bytes[index] != OPEN {
        PlainByte(bytes, index, st);
        if bytes[index] == NEWLINE {
          st := st.(line := st.line + 1);
        }
        index := index + 1;
        continue;
      }
      var tagLine := st.line;
      var end, line := FindTagEnd(bytes, index + 1, tagLine);
      if end >= |bytes| {
        assert bytes[index + 1..end] == bytes[index + 1..];
        OpenTag(bytes, index, st);
        return Err(tagLine, UnterminatedTag);
      }
      TagAt(bytes, index, end, st);
      var tag := Decode(bytes[index + 1..end]);
      if tag.None? {
        return Err(tagLine, TagNotUtf8);
      }
      index := end + 1;
      var next := ReadTag(st.(line := line), tag.value, tagLine, bytes[index..]);
      if next.Err? {
        return Err(next.line, next.problem);
      }
      var taken;
      st, taken := next.value.0, next.value.1;
      assert bytes[index..][taken..] == bytes[index + taken..];
      index := index + taken;
    }
    assert bytes[index..] == [];
    NothingLeft(st);
    return Ok(Finish(st));
  }

  lemma PlainByte(bytes: seq<Byte>, index: nat, st: State)
    requires index < |bytes| && bytes[index] != OPEN
    ensures ParseFrom(bytes[index..], st) ==
            ParseFrom(bytes[index + 1..], if bytes[index] == NEWLINE then st.(line := st.line + 1) else st)
  {
    assert bytes[index..][1..] == bytes[index + 1..];
  }

  lemma NothingLeft(st: State)
    ensures ParseFrom([], st) == Ok(st)
  {
  }

  /** Takes in one tag: the end of the header, the end of a record, or a field with its value. */
  method ReadTag(st: State, tag: string, tagLine: nat, behind: seq<Byte>) returns (r: Result<(State, nat)>)
    ensures r == TakeTag(st, tag, tagLine, behind)
  {
    hide Trim, AsciiUpper, ParseTag, Decode, Newlines;
    var next := st;
    var normalized := AsciiUpper(Trim(tag));
    if normalized == "EOH" {
      next := next.(inHeader := false, pending := map[], pendingLine := None);
      return Ok((next, 0));
    }
    if normalized == "EOR" {
      if next.inHeader {
        if next.pending != map[] {
          var record := Record(LineOr(next.pendingLine, tagLine), next.pending);
          next := next.(records := next.records + [record], pending := map[]);
        }
      } else if next.current != map[] {
        var record := Record(LineOr(next.currentLine, tagLine), next.current);
        next := next.(records := next.records + [record], current := map[], currentLine := None);
      }
      return Ok((next, 0));
    }
    var parsed := ParseTag(tag);
    if parsed.None? {
      return Err(tagLine, InvalidTag);
    }
    var (name, length) := parsed.value;
    if length > |behind| {
      return Err(tagLine, TruncatedField);
    }
    var value := Decode(behind[..length]);
    if value.None? {
      return Err(tagLine, FieldNotUtf8);
    }
    next := next.(line := next.line + Newlines(behind[..length]));
    if name == "" {
      return Err(tagLine, EmptyName);
    }
    if next.inHeader {
      if next.pending == map[] {
        next := next.(pendingLine := Some(tagLine));
      }
      next := next.(pending := next.pending[name := Trim(value.value)]);
    } else {
      if next.current == map[] {
        next := next.(currentLine := Some(tagLine));
      }
      next := next.(current := next.current[name := Trim(value.value)]);
    }
    return Ok((next, length));
  }

  /** Writing a log and reading it back. */
  method WriteAndRead(version: string, contacts: seq<Fields>) returns (r: Result<seq<Record>>)
    requires VersionOk(version) && forall i :: 0 <= i < |contacts| ==> ContactOk(contacts[i])
    ensures r == Ok(seq(|contacts|, i requires 0 <= i < |contacts| => Record(3 + i, Cleaned(contacts[i]))))
  {
    hide ContactOk, ListsFields, VersionOk, Header, RenderRecords, ParseRecords;
    var text, orders := RenderLog(version, contacts);
    RoundTrip(version, contacts, orders);
    r := ParseFile(text);
  }
}
