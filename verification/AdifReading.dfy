/** What a file of any shape is read as: which texts are accepted, which records they hold, and on which lines. */
module AdifReading {
  import opened Sums
  import opened Utf8
  import opened AdifText
  import opened AdifRoundTrip
  import opened AdifMeaning

  /** Words between tags, fields, and the tags that end a record or the header. */
  datatype Piece =
    | Words(bytes: seq<Byte>)
    | Field(name: string, length: string, kind: string, value: string)
    | RecordEnd(tag: string)
    | HeaderEnd(tag: string)

  ghost predicate PieceOk(p: Piece) {
    match p
    case Words(bytes) => OPEN !in bytes
    case Field(name, length, kind, value) =>
      && ':' !in name && ':' !in length && TypePart(kind) && '>' !in TagOf(p)
      && WritesLength(Trim(length), |Encode(value)|) && Trim(name) != ""
    case RecordEnd(tag) => '>' !in tag && Ends(tag, "EOR")
    case HeaderEnd(tag) => '>' !in tag && Ends(tag, "EOH")
  }

  function TagOf(p: Piece): string {
    match p
    case Words(_) => ""
    case Field(name, length, kind, _) => name + ":" + length + kind
    case RecordEnd(tag) => tag
    case HeaderEnd(tag) => tag
  }

  function BytesOf(p: Piece): seq<Byte> {
    match p
    case Words(bytes) => bytes
    case Field(_, _, _, value) => [OPEN] + Encode(TagOf(p)) + [CLOSE] + Encode(value)
    case _ => [OPEN] + Encode(TagOf(p)) + [CLOSE]
  }

  function Joined(pieces: seq<Piece>): seq<Byte> {
    if pieces == [] then [] else Joined(pieces[..|pieces| - 1]) + BytesOf(pieces[|pieces| - 1])
  }

  // ----- the records of a file -----

  predicate NoHeaderEnd(pieces: seq<Piece>) {
    forall i :: 0 <= i < |pieces| ==> !pieces[i].HeaderEnd?
  }

  /** Where the record under way begins: behind the last end of a record, or the first end of a header. */
  function Begin(pieces: seq<Piece>): (b: nat)
    ensures b <= |pieces|
  {
    if pieces == [] then 0
    else
      var n := |pieces| - 1;
      if pieces[n].RecordEnd? || (pieces[n].HeaderEnd? && NoHeaderEnd(pieces[..n])) then n + 1 else Begin(pieces[..n])
  }

  /** The values of the fields, each under the normalized name; the last of several with one name counts. */
  function Contents(pieces: seq<Piece>): Fields {
    if pieces == [] then map[]
    else
      var n := |pieces| - 1;
      var before := Contents(pieces[..n]);
      if pieces[n].Field? then before[NormalizeFieldName(pieces[n].name) := Trim(pieces[n].value)] else before
  }

  function FirstField(pieces: seq<Piece>, from: nat): (f: nat)
    requires from <= |pieces|
    ensures from <= f <= |pieces| && forall i :: from <= i < f ==> !pieces[i].Field?
    ensures f < |pieces| ==> pieces[f].Field?
    decreases |pieces| - from
  {
    if from < |pieces| && !pieces[from].Field? then FirstField(pieces, from + 1) else from
  }

  function LineOf(pieces: seq<Piece>, i: nat): nat
    requires i <= |pieces|
  {
    1 + Newlines(Joined(pieces[..i]))
  }

  /** The record that is under way, if it has a field: it belongs to the line of its first one. */
  function UnderWay(pieces: seq<Piece>): seq<Record> {
    var fields := Contents(pieces[Begin(pieces)..]);
    if fields == map[] then [] else [Record(LineOf(pieces, FirstField(pieces, Begin(pieces))), fields)]
  }

  /** The records that are complete. */
  function Completed(pieces: seq<Piece>): seq<Record> {
    if pieces == [] then []
    else
      var n := |pieces| - 1;
      Completed(pieces[..n]) + (if pieces[n].RecordEnd? then UnderWay(pieces[..n]) else [])
  }

  /** What the contents of a record are, field by field. */
  lemma {:induction false} ContentsAre(pieces: seq<Piece>, i: nat)
    requires i < |pieces| && pieces[i].Field?
    requires forall j :: i < j < |pieces| && pieces[j].Field? ==>
               NormalizeFieldName(pieces[j].name) != NormalizeFieldName(pieces[i].name)
    ensures var name := NormalizeFieldName(pieces[i].name);
            name in Contents(pieces) && Contents(pieces)[name] == Trim(pieces[i].value)
  {
    hide NormalizeFieldName, Trim;
    var n := |pieces| - 1;
    if i < n {
      ContentsAre(pieces[..n], i);
    }
  }

  lemma {:induction false} ContentsComeFrom(pieces: seq<Piece>, name: string)
    ensures name in Contents(pieces) <==>
            exists i :: 0 <= i < |pieces| && pieces[i].Field? && NormalizeFieldName(pieces[i].name) == name
  {
    hide NormalizeFieldName, Trim;
    if pieces != [] {
      var n := |pieces| - 1;
      ContentsComeFrom(pieces[..n], name);
      if i :| 0 <= i < |pieces| && pieces[i].Field? && NormalizeFieldName(pieces[i].name) == name {
        if i < n {
          assert pieces[..n][i] == pieces[i];
        }
      }
      if name in Contents(pieces[..n]) {
        var i :| 0 <= i < n && pieces[..n][i].Field? && NormalizeFieldName(pieces[..n][i].name) == name;
        assert pieces[i] == pieces[..n][i];
      }
    }
  }

  // ----- one piece -----

  function After(st: State, p: Piece): State {
    var next := st.(line := st.line + Newlines(BytesOf(p)));
    match p
    case Words(_) => next
    case Field(name, _, _, value) => TakeField(next, st.line, NormalizeFieldName(name), Trim(value))
    case RecordEnd(_) => EndOfRecord(next, st.line)
    case HeaderEnd(_) => next.(inHeader := false, pending := map[], pendingLine := None)
  }

  /** Reading a whole tag, which may stand on several lines. */
  lemma WholeTag(tag: string, behind: seq<Byte>, st: State)
    requires '>' !in tag
    ensures ParseFrom([OPEN] + Encode(tag) + [CLOSE] + behind, st) ==
            var r := TakeTag(st.(line := st.line + Newlines(Encode(tag))), tag, st.line, behind);
            if r.Err? then Err(r.line, r.problem) else ParseFrom(behind[r.value.1..], r.value.0)
  {
    hide Encode, Decode, TakeTag, TagEnd, Newlines, ParseFrom;
    var bytes := Encode(tag);
    PlainBytes(tag, '>');
    TagEndAt(bytes, behind);
    DecodeEncode(tag);
    TagShape(bytes, behind);
    WholeTagRead([OPEN] + bytes + [CLOSE] + behind, |bytes|, tag, behind, st);
  }

  lemma WholeTagRead(rest: seq<Byte>, n: nat, tag: string, behind: seq<Byte>, st: State)
    requires rest != [] && rest[0] == OPEN && n + 2 <= |rest| && behind == rest[n + 2..]
    requires TagEnd(rest[1..]) == Some(n) && Decode(rest[1..][..n]) == Some(tag)
    ensures ParseFrom(rest, st) ==
            var r := TakeTag(st.(line := st.line + Newlines(rest[1..][..n])), tag, st.line, behind);
            if r.Err? then Err(r.line, r.problem) else ParseFrom(behind[r.value.1..], r.value.0)
  {
    hide Decode, TakeTag, TagEnd, Newlines;
  }

  lemma TagLines(bytes: seq<Byte>, value: seq<Byte>)
    ensures Newlines([OPEN] + bytes + [CLOSE]) == Newlines(bytes)
    ensures Newlines([OPEN] + bytes + [CLOSE] + value) == Newlines(bytes) + Newlines(value)
  {
    NewlinesJoin([OPEN] + bytes + [CLOSE], value);
    NewlinesJoin([OPEN] + bytes, [CLOSE]);
    NewlinesJoin([OPEN], bytes);
  }

  /** White space around a tag does not hide its colon. */
  lemma ColonStays(tag: string)
    requires ':' in tag
    ensures !Ends(tag, "EOH") && !Ends(tag, "EOR")
  {
    hide Trim;
    var left, right := TrimIs(tag);
    assert ':' in left + Trim(tag) + right;
    assert ':' in Trim(tag);
    var k :| 0 <= k < |Trim(tag)| && Trim(tag)[k] == ':';
  }

  lemma FieldTagStep(p: Piece)
    requires PieceOk(p) && p.Field?
    ensures ParseTag(TagOf(p)) == Some((NormalizeFieldName(p.name), |Encode(p.value)|))
    ensures NormalizeFieldName(p.name) != "" && !Ends(TagOf(p), "EOH") && !Ends(TagOf(p), "EOR")
  {
    hide Trim, Encode, ParseTag, WritesLength, TypePart, Ends;
    FieldTagIs(p.name, p.length, p.kind, |Encode(p.value)|);
    assert TagOf(p)[|p.name|] == ':';
    ColonStays(TagOf(p));
    NameIs(p.name);
  }

  lemma FieldRead(p: Piece, rest: seq<Byte>, st: State)
    requires PieceOk(p) && p.Field?
    ensures ParseFrom(BytesOf(p) + rest, st) == ParseFrom(rest, After(st, p))
  {
    hide Trim, Encode, ParseFrom, TakeTag, TakeField, Newlines, NormalizeFieldName, Ends, WritesLength, TypePart, TagOf;
    var tag, value := Encode(TagOf(p)), Encode(p.value);
    TagIsClosed(p);
    TagLines(tag, value);
    Associate([OPEN] + tag + [CLOSE], value, rest);
    var behind := value + rest;
    assert behind[|value|..] == rest;
    WholeTag(TagOf(p), behind, st);
    FieldTaken(p, rest, st.(line := st.line + Newlines(tag)), st.line);
  }

  lemma TagIsClosed(p: Piece)
    requires PieceOk(p) && !p.Words?
    ensures '>' !in TagOf(p)
  {
  }

  lemma FieldTaken(p: Piece, rest: seq<Byte>, st: State, tagLine: nat)
    requires PieceOk(p) && p.Field?
    ensures TakeTag(st, TagOf(p), tagLine, Encode(p.value) + rest)
            == Ok((TakeField(st.(line := st.line + Newlines(Encode(p.value))), tagLine, NormalizeFieldName(p.name), Trim(p.value)),
                   |Encode(p.value)|))
  {
    hide Trim, Encode, Decode, ParseTag, TakeTag, TakeField, Newlines, NormalizeFieldName, Ends, PieceOk, TagOf;
    FieldTagStep(p);
    DecodeEncode(p.value);
    assert (Encode(p.value) + rest)[..|Encode(p.value)|] == Encode(p.value);
    TagDoes(st, TagOf(p), tagLine, Encode(p.value) + rest);
  }

  lemma EndRead(p: Piece, rest: seq<Byte>, st: State)
    requires PieceOk(p) && (p.RecordEnd? || p.HeaderEnd?)
    ensures ParseFrom(BytesOf(p) + rest, st) == ParseFrom(rest, After(st, p))
  {
    hide Trim, Encode, ParseTag, ParseFrom, TakeTag, Newlines, Ends, EndOfRecord;
    var tag := Encode(p.tag);
    TagLines(tag, []);
    WholeTag(p.tag, rest, st);
    TagDoes(st.(line := st.line + Newlines(tag)), p.tag, st.line, rest);
    assert rest[0..] == rest;
    assert Ends(p.tag, "EOR") && Ends(p.tag, "EOH") ==> false by { EndsOnce(p.tag); }
  }

  lemma EndsOnce(tag: string)
    ensures !(Ends(tag, "EOR") && Ends(tag, "EOH"))
  {
    hide Trim;
    var r, h := "EOR", "EOH";
    assert r[2] == 'R' && h[2] == 'H';
  }

  lemma PieceRead(p: Piece, rest: seq<Byte>, st: State)
    requires PieceOk(p)
    ensures ParseFrom(BytesOf(p) + rest, st) == ParseFrom(rest, After(st, p))
  {
    match p
    case Words(bytes) => SkipsPlain(bytes, rest, st);
    case Field(_, _, _, _) => FieldRead(p, rest, st);
    case _ => EndRead(p, rest, st);
  }

  // ----- all pieces -----

  function AfterAll(pieces: seq<Piece>): State {
    if pieces == [] then START else After(AfterAll(pieces[..|pieces| - 1]), pieces[|pieces| - 1])
  }

  ghost predicate PiecesOk(pieces: seq<Piece>) {
    forall i :: 0 <= i < |pieces| ==> PieceOk(pieces[i])
  }

  lemma {:induction false} PiecesRead(pieces: seq<Piece>, rest: seq<Byte>)
    requires PiecesOk(pieces)
    ensures ParseFrom(Joined(pieces) + rest, START) == ParseFrom(rest, AfterAll(pieces))
    decreases |pieces|
  {
    hide PieceOk, ParseFrom, BytesOf, After;
    if pieces == [] {
      assert Joined(pieces) + rest == rest;
    } else {
      var init, last := pieces[..|pieces| - 1], pieces[|pieces| - 1];
      Associate(Joined(init), BytesOf(last), rest);
      PiecesRead(init, BytesOf(last) + rest);
      PieceRead(last, rest, AfterAll(init));
    }
  }

  /** The state agrees with the pieces read so far. */
  ghost predicate Tracks(st: State, pieces: seq<Piece>) {
    var b := Begin(pieces);
    var fields := Contents(pieces[b..]);
    var line := Some(LineOf(pieces, FirstField(pieces, b)));
    && st.line == LineOf(pieces, |pieces|)
    && st.inHeader == NoHeaderEnd(pieces)
    && st.records == Completed(pieces)
    && st.pending == (if st.inHeader then fields else map[])
    && st.current == (if st.inHeader then map[] else fields)
    && (fields != map[] ==> (if st.inHeader then st.pendingLine else st.currentLine) == line)
  }

  lemma OneMore(pieces: seq<Piece>, p: Piece)
    ensures var more := pieces + [p];
            && more[..|pieces|] == pieces && more[|pieces|] == p && more[..|more|] == more && pieces[..|pieces|] == pieces
            && (forall b :: 0 <= b <= |pieces| ==> more[b..] == pieces[b..] + [p])
            && (forall b :: 0 <= b <= |pieces| ==> more[..b] == pieces[..b])
  {
  }

  /** The first field stays the first. */
  lemma {:induction false} FirstStays(pieces: seq<Piece>, p: Piece, from: nat)
    requires from <= |pieces|
    ensures var f := FirstField(pieces, from);
            FirstField(pieces + [p], from) == if f < |pieces| || p.Field? then f else f + 1
    decreases |pieces| - from
  {
    var more := pieces + [p];
    assert forall i :: 0 <= i < |pieces| ==> more[i] == pieces[i];
    if from < |pieces| && !pieces[from].Field? {
      FirstStays(pieces, p, from + 1);
    } else if from == |pieces| && !p.Field? {
      assert FirstField(more, from) == FirstField(more, from + 1);
    }
  }

  /** There are contents as soon as there is a field. */
  lemma {:induction false} SomeContents(pieces: seq<Piece>, from: nat)
    requires from <= |pieces|
    ensures Contents(pieces[from..]) == map[] <==> FirstField(pieces, from) == |pieces|
  {
    hide NormalizeFieldName, Trim;
    var tail := pieces[from..];
    var f := FirstField(pieces, from);
    assert forall i :: 0 <= i < |tail| ==> tail[i] == pieces[from + i];
    if f < |pieces| {
      ContentsComeFrom(tail, NormalizeFieldName(pieces[f].name));
      assert tail[f - from].Field?;
    } else if name :| name in Contents(tail) {
      ContentsComeFrom(tail, name);
    }
  }

  lemma LinesMore(pieces: seq<Piece>, p: Piece)
    ensures LineOf(pieces + [p], |pieces| + 1) == LineOf(pieces, |pieces|) + Newlines(BytesOf(p))
  {
    OneMore(pieces, p);
    NewlinesJoin(Joined(pieces), BytesOf(p));
  }

  /** A piece that ends nothing goes with those since the beginning. */
  lemma GoesOn(pieces: seq<Piece>, p: Piece)
    requires p.Field? || p.Words? || (p.HeaderEnd? && !NoHeaderEnd(pieces))
    ensures var b, more := Begin(pieces), pieces + [p];
            var before := Contents(pieces[b..]);
            && Begin(more) == b && Completed(more) == Completed(pieces) && NoHeaderEnd(more) == NoHeaderEnd(pieces)
            && Contents(more[b..]) == (if p.Field? then before[NormalizeFieldName(p.name) := Trim(p.value)] else before)
  {
    hide NormalizeFieldName, Trim, NoHeaderEnd, Completed, Begin, Contents;
    HeaderMore(pieces, p);
    BeginStays(pieces, p);
    CompletedStays(pieces, p);
    ContentsMore(pieces, p, Begin(pieces));
  }

  lemma BeginStays(pieces: seq<Piece>, p: Piece)
    requires p.Field? || p.Words? || (p.HeaderEnd? && !NoHeaderEnd(pieces))
    ensures Begin(pieces + [p]) == Begin(pieces)
  {
    hide NoHeaderEnd;
    OneMore(pieces, p);
  }

  lemma CompletedStays(pieces: seq<Piece>, p: Piece)
    requires !p.RecordEnd?
    ensures Completed(pieces + [p]) == Completed(pieces)
  {
    hide UnderWay;
    OneMore(pieces, p);
    assert Completed(pieces) + [] == Completed(pieces);
  }

  lemma ContentsMore(pieces: seq<Piece>, p: Piece, b: nat)
    requires b <= |pieces|
    ensures var before := Contents(pieces[b..]);
            Contents((pieces + [p])[b..]) == if p.Field? then before[NormalizeFieldName(p.name) := Trim(p.value)] else before
  {
    hide NormalizeFieldName, Trim;
    OneMore(pieces, p);
    OneMore(pieces[b..], p);
  }

  /** The line of the record under way is that of its first field. */
  lemma LineGoesOn(pieces: seq<Piece>, p: Piece, b: nat)
    requires b <= |pieces|
    ensures var more := pieces + [p];
            && (Contents(pieces[b..]) != map[] ==> LineOf(more, FirstField(more, b)) == LineOf(pieces, FirstField(pieces, b)))
            && (Contents(pieces[b..]) == map[] && p.Field? ==> LineOf(more, FirstField(more, b)) == LineOf(pieces, |pieces|))
  {
    hide Contents, LineOf, FirstField;
    FirstStays(pieces, p, b);
    SomeContents(pieces, b);
    LineStays(pieces, p, FirstField(pieces, b));
  }

  lemma LineStays(pieces: seq<Piece>, p: Piece, i: nat)
    requires i <= |pieces|
    ensures LineOf(pieces + [p], i) == LineOf(pieces, i)
  {
    OneMore(pieces, p);
  }

  lemma HeaderMore(pieces: seq<Piece>, p: Piece)
    ensures NoHeaderEnd(pieces + [p]) <==> NoHeaderEnd(pieces) && !p.HeaderEnd?
  {
    var more := pieces + [p];
    assert forall i :: 0 <= i < |pieces| ==> more[i] == pieces[i];
    assert more[|pieces|] == p;
  }

  lemma NewField(st: State, pieces: seq<Piece>, p: Piece)
    requires Tracks(st, pieces) && p.Field?
    ensures Tracks(After(st, p), pieces + [p])
  {
    hide NormalizeFieldName, Trim, LineOf, Newlines, BytesOf, NoHeaderEnd, FirstField, Contents, Begin, Completed;
    GoesOn(pieces, p);
    LineGoesOn(pieces, p, Begin(pieces));
    LinesMore(pieces, p);
  }

  lemma NewWords(st: State, pieces: seq<Piece>, p: Piece)
    requires Tracks(st, pieces) && (p.Words? || (p.HeaderEnd? && !NoHeaderEnd(pieces)))
    ensures Tracks(After(st, p), pieces + [p])
  {
    hide NormalizeFieldName, Trim, LineOf, Newlines, BytesOf, NoHeaderEnd, FirstField, Contents, Begin, Completed;
    GoesOn(pieces, p);
    LineGoesOn(pieces, p, Begin(pieces));
    LinesMore(pieces, p);
  }

  /** A piece that ends something leaves nothing under way. */
  lemma EndsThere(pieces: seq<Piece>, p: Piece)
    requires p.RecordEnd? || (p.HeaderEnd? && NoHeaderEnd(pieces))
    ensures var more := pieces + [p];
            && Begin(more) == |more| && Contents(more[|more|..]) == map[]
            && NoHeaderEnd(more) == (NoHeaderEnd(pieces) && !p.HeaderEnd?)
            && Completed(more) == Completed(pieces) + if p.RecordEnd? then UnderWay(pieces) else []
  {
    hide NormalizeFieldName, Trim, NoHeaderEnd, UnderWay;
    var more := pieces + [p];
    HeaderMore(pieces, p);
    OneMore(pieces, p);
  }

  lemma NewEnd(st: State, pieces: seq<Piece>, p: Piece)
    requires Tracks(st, pieces) && (p.RecordEnd? || (p.HeaderEnd? && NoHeaderEnd(pieces)))
    ensures Tracks(After(st, p), pieces + [p])
  {
    hide NormalizeFieldName, Trim, LineOf, Newlines, BytesOf, NoHeaderEnd, FirstField, Contents, Begin, Completed;
    EndsThere(pieces, p);
    LinesMore(pieces, p);
  }

  lemma {:induction false} AllTracked(pieces: seq<Piece>)
    ensures Tracks(AfterAll(pieces), pieces)
    decreases |pieces|
  {
    hide After, Tracks;
    if pieces == [] {
      assert Tracks(START, []) by { NothingTracked(); }
    } else {
      var init, last := pieces[..|pieces| - 1], pieces[|pieces| - 1];
      AllTracked(init);
      assert pieces == init + [last];
      if last.Field? {
        NewField(AfterAll(init), init, last);
      } else if last.Words? || (last.HeaderEnd? && !NoHeaderEnd(init)) {
        NewWords(AfterAll(init), init, last);
      } else {
        NewEnd(AfterAll(init), init, last);
      }
    }
  }

  lemma NothingTracked()
    ensures Tracks(START, [])
  {
    assert Joined([]) == [] && Newlines([]) == 0;
  }

  // ----- which files are read -----

  lemma TagParts(tag: string) returns (name: string, length: string, kind: string)
    requires ':' in tag
    ensures tag == name + ":" + length + kind && ':' !in name && ':' !in length && TypePart(kind)
  {
    var rest: string;
    name, rest := FirstColon(tag);
    if ':' in rest {
      var after: string;
      length, after := FirstColon(rest);
      kind := ":" + after;
    } else {
      length, kind := rest, "";
    }
  }

  lemma {:induction false} FirstColon(s: string) returns (before: string, after: string)
    requires ':' in s
    ensures s == before + ":" + after && ':' !in before
  {
    if s[0] == ':' {
      before, after := "", s[1..];
    } else {
      assert s == [s[0]] + s[1..];
      var init;
      init, after := FirstColon(s[1..]);
      before := [s[0]] + init;
    }
  }

  lemma PartsOf(tag: string, name: string, n: nat) returns (first: string, length: string, kind: string)
    requires ParseTag(tag) == Some((name, n))
    ensures tag == first + ":" + length + kind && ':' !in first && ':' !in length && TypePart(kind)
    ensures WritesLength(Trim(length), n) && name == NormalizeFieldName(first)
  {
    hide ParseTag, Trim, WritesLength, TypePart, NormalizeFieldName;
    if ':' !in tag {
      FieldTagIs(tag, "", "", 0) by { TypeMayMiss(); }
      assert false;
    }
    first, length, kind := TagParts(tag);
    FieldTagIs(first, length, kind, n);
    var m: nat :| WritesLength(Trim(length), m);
    FieldTagIs(first, length, kind, m);
  }

  lemma TypeMayMiss()
    ensures TypePart("")
  {
  }

  /** A tag that is read is the beginning of a piece. */
  lemma TagPiece(tag: string, st: State, tagLine: nat, behind: seq<Byte>) returns (p: Piece, rest: seq<Byte>)
    requires '>' !in tag && TakeTag(st, tag, tagLine, behind).Ok?
    ensures PieceOk(p) && !p.Words? && TagOf(p) == tag
    ensures behind == (if p.Field? then Encode(p.value) else []) + rest
  {
    TagDoes(st, tag, tagLine, behind);
    hide Trim, ParseTag, TakeTag, Decode, Encode, Ends, WritesLength, TypePart, NormalizeFieldName, Newlines;
    rest := behind;
    if Ends(tag, "EOH") {
      p := HeaderEnd(tag);
    } else if Ends(tag, "EOR") {
      p := RecordEnd(tag);
    } else {
      var (name, n) := ParseTag(tag).value;
      var first, length, kind := PartsOf(tag, name, n);
      NameIs(first);
      EncodeDecode(behind[..n]);
      p, rest := Field(first, length, kind, Decode(behind[..n]).value), behind[n..];
      assert behind == behind[..n] + behind[n..];
    }
  }

  lemma FirstPiece(rest: seq<Byte>, st: State) returns (p: Piece, behind: seq<Byte>)
    requires rest != [] && ParseFrom(rest, st).Ok?
    ensures PieceOk(p) && rest == BytesOf(p) + behind && |behind| < |rest|
  {
    hide Trim, ParseTag, TakeTag, Decode, Encode, Ends, WritesLength, TypePart, Newlines, TagEnd;
    if rest[0] != OPEN {
      p, behind := Words(rest[..1]), rest[1..];
    } else {
      var n := TagEnd(rest[1..]).value;
      var inside, after := rest[1..][..n], rest[n + 2..];
      var tag := Decode(inside).value;
      EncodeDecode(inside);
      PlainBytes(tag, '>');
      p, behind := TagPiece(tag, st.(line := st.line + Newlines(inside)), st.line, after);
      assert rest == [OPEN] + inside + [CLOSE] + after;
      Associate([OPEN] + inside + [CLOSE], if p.Field? then Encode(p.value) else [], behind);
      assert [OPEN] + inside + [CLOSE] + [] == [OPEN] + inside + [CLOSE];
    }
  }

  /** What is read without a problem is made of pieces. */
  lemma {:induction false} MadeOfPieces(rest: seq<Byte>, st: State) returns (pieces: seq<Piece>)
    requires ParseFrom(rest, st).Ok?
    ensures PiecesOk(pieces) && Joined(pieces) == rest
    decreases |rest|
  {
    hide PieceOk, BytesOf;
    pieces := [];
    if rest != [] {
      var p, behind := FirstPiece(rest, st);
      PieceRead(p, behind, st);
      var more := MadeOfPieces(behind, After(st, p));
      pieces := [p] + more;
      JoinFront(p, more);
    }
  }

  lemma {:induction false} JoinFront(p: Piece, more: seq<Piece>)
    ensures Joined([p] + more) == BytesOf(p) + Joined(more)
    decreases |more|
  {
    hide BytesOf;
    var pieces := [p] + more;
    if more == [] {
      assert pieces[..0] == [];
      assert [] + BytesOf(p) == BytesOf(p) + [];
    } else {
      var n := |more| - 1;
      assert pieces[..n + 1] == [p] + more[..n] && pieces[n + 1] == more[n];
      JoinFront(p, more[..n]);
      Associate(BytesOf(p), Joined(more[..n]), BytesOf(more[n]));
    }
  }

  /** These pieces make up the file. */
  ghost predicate MakeUp(pieces: seq<Piece>, text: string) {
    PiecesOk(pieces) && Joined(pieces) == Encode(text)
  }

  lemma PiecesAreRecords(pieces: seq<Piece>, text: string)
    requires MakeUp(pieces, text)
    ensures ParseRecords(text) == Ok(Completed(pieces) + UnderWay(pieces))
  {
    PiecesRead(pieces, []);
    AllTracked(pieces);
    var st := AfterAll(pieces);
    assert ParseFrom([], st) == Ok(st);
    assert Joined(pieces) + [] == Encode(text);
    hide ParseFrom, Joined, Encode, Contents, Begin, FirstField, Completed, LineOf, NoHeaderEnd, AfterAll, PiecesOk;
    assert Completed(pieces) + [] == Completed(pieces);
  }

  /**
   A text is read without a problem exactly if it is made of words, fields and ends of records and headers.
   However it is taken apart, its records are those between the ends that have a field, and perhaps one
   that the end of the file cuts short.
   */
  lemma ReadsExactly(text: string)
    ensures ParseRecords(text).Ok? <==> exists pieces :: MakeUp(pieces, text)
    ensures forall pieces :: MakeUp(pieces, text) ==> ParseRecords(text) == Ok(Completed(pieces) + UnderWay(pieces))
  {
    hide Joined, PiecesOk, ParseFrom, Encode, Completed, UnderWay;
    forall pieces | MakeUp(pieces, text) ensures ParseRecords(text) == Ok(Completed(pieces) + UnderWay(pieces)) {
      PiecesAreRecords(pieces, text);
    }
    if ParseRecords(text).Ok? {
      var pieces := MadeOfPieces(Encode(text), START);
      assert MakeUp(pieces, text);
    }
  }

  // ----- which problem is found -----

  lemma TagsWithoutEnd(bytes: seq<Byte>, st: State)
    requires CLOSE !in bytes
    ensures ParseFrom([OPEN] + bytes, st) == Err(st.line, UnterminatedTag)
  {
    assert ([OPEN] + bytes)[1..] == bytes;
  }

  lemma TagsInOtherBytes(bytes: seq<Byte>, behind: seq<Byte>, st: State)
    requires CLOSE !in bytes && Decode(bytes).None?
    ensures ParseFrom([OPEN] + bytes + [CLOSE] + behind, st) == Err(st.line, TagNotUtf8)
  {
    hide Decode, TakeTag, TagEnd, Newlines;
    TagEndAt(bytes, behind);
    TagShape(bytes, behind);
  }

  /** The tag of a field: a name, a length and perhaps a data type. */
  ghost predicate IsFieldTag(tag: string, name: string, n: nat) {
    exists length, kind ::
      tag == name + ":" + length + kind && ':' !in name && ':' !in length && TypePart(kind) && WritesLength(Trim(length), n)
  }

  lemma FieldTagsAre(tag: string)
    ensures forall name, n: nat :: IsFieldTag(tag, name, n) ==> ParseTag(tag) == Some((NormalizeFieldName(name), n))
    ensures ParseTag(tag).Some? ==> exists name, n: nat :: IsFieldTag(tag, name, n)
  {
    hide ParseTag, Trim, WritesLength, TypePart, NormalizeFieldName;
    forall name, n: nat | IsFieldTag(tag, name, n) ensures ParseTag(tag) == Some((NormalizeFieldName(name), n)) {
      var length, kind :| tag == name + ":" + length + kind && ':' !in name && ':' !in length && TypePart(kind)
                          && WritesLength(Trim(length), n);
      FieldTagIs(name, length, kind, n);
    }
    if ParseTag(tag).Some? {
      var first, length, kind := PartsOf(tag, ParseTag(tag).value.0, ParseTag(tag).value.1);
      assert IsFieldTag(tag, first, ParseTag(tag).value.1);
    }
  }

  lemma BadTag(tag: string, behind: seq<Byte>, st: State)
    requires '>' !in tag && !Ends(tag, "EOH") && !Ends(tag, "EOR")
    ensures var r := ParseFrom([OPEN] + Encode(tag) + [CLOSE] + behind, st);
            && ((forall name, n: nat :: !IsFieldTag(tag, name, n)) ==> r == Err(st.line, InvalidTag))
            && (forall name, n: nat :: IsFieldTag(tag, name, n) ==>
                  && (n > |behind| ==> r == Err(st.line, TruncatedField))
                  && (n <= |behind| && Decode(behind[..n]).None? ==> r == Err(st.line, FieldNotUtf8))
                  && (n <= |behind| && Decode(behind[..n]).Some? && Trim(name) == "" ==> r == Err(st.line, EmptyName)))
  {
    hide ParseFrom, ParseTag, Trim, TakeTag, Encode, Decode, Ends, IsFieldTag, NormalizeFieldName, Newlines;
    WholeTag(tag, behind, st);
    TagDoes(st.(line := st.line + Newlines(Encode(tag))), tag, st.line, behind);
    FieldTagsAre(tag);
    forall name, n: nat | IsFieldTag(tag, name, n) ensures NormalizeFieldName(name) == "" <==> Trim(name) == "" {
      NameIs(name);
    }
  }

  /**
   A file that is in order up to some tag and not beyond is refused with the line of that tag, and with the
   problem of the tag or of the value behind it.
   */
  lemma FailsThere(pieces: seq<Piece>, bytes: seq<Byte>, tag: string, behind: seq<Byte>)
    requires PiecesOk(pieces) && CLOSE !in bytes && '>' !in tag && !Ends(tag, "EOH") && !Ends(tag, "EOR")
    ensures var line := LineOf(pieces, |pieces|);
            && ParseFrom(Joined(pieces) + ([OPEN] + bytes), START) == Err(line, UnterminatedTag)
            && (Decode(bytes).None? ==>
                  ParseFrom(Joined(pieces) + ([OPEN] + bytes + [CLOSE] + behind), START) == Err(line, TagNotUtf8))
            && var r := ParseFrom(Joined(pieces) + ([OPEN] + Encode(tag) + [CLOSE] + behind), START);
            && ((forall name, n: nat :: !IsFieldTag(tag, name, n)) ==> r == Err(line, InvalidTag))
            && (forall name, n: nat :: IsFieldTag(tag, name, n) ==>
                  && (n > |behind| ==> r == Err(line, TruncatedField))
                  && (n <= |behind| && Decode(behind[..n]).None? ==> r == Err(line, FieldNotUtf8))
                  && (n <= |behind| && Decode(behind[..n]).Some? && Trim(name) == "" ==> r == Err(line, EmptyName)))
  {
    hide ParseFrom, Joined, PiecesOk, Trim, Encode, Decode, Ends, IsFieldTag, LineOf, Begin, Contents, Completed, FirstField,
         NoHeaderEnd, AfterAll;
    AllTracked(pieces);
    var st := AfterAll(pieces);
    PiecesRead(pieces, [OPEN] + bytes);
    TagsWithoutEnd(bytes, st);
    PiecesRead(pieces, [OPEN] + bytes + [CLOSE] + behind);
    if Decode(bytes).None? { TagsInOtherBytes(bytes, behind, st); }
    PiecesRead(pieces, [OPEN] + Encode(tag) + [CLOSE] + behind);
    BadTag(tag, behind, st);
  }
}
