/** The ADIF text form of a log: fields whose lengths stand in front of them. */
module AdifText {
  import opened Sums
  import opened Utf8

  const NEWLINE: Byte := 10
  const OPEN: Byte := 60
  const CLOSE: Byte := 62

  type Fields = map<string, string>

  /** A parsed record and the line of its first field. */
  datatype Record = Record(line: nat, fields: Fields)

  datatype Problem = UnterminatedTag | TagNotUtf8 | InvalidTag | TruncatedField | FieldNotUtf8 | EmptyName

  datatype Result<+T> = Ok(value: T) | Err(line: nat, problem: Problem)

  // ----- text -----

  /** White space as Unicode defines it. */
  predicate IsSpace(c: char) {
    var n := c as int;
    || 9 <= n <= 13 || n == 0x20 || n == 0x85 || n == 0xA0 || n == 0x1680 || 0x2000 <= n <= 0x200A
    || n == 0x2028 || n == 0x2029 || n == 0x202F || n == 0x205F || n == 0x3000
  }

  function TrimStart(s: string): string {
    if s != "" && IsSpace(s[0]) then TrimStart(s[1..]) else s
  }

  function TrimEnd(s: string): string {
    if s != "" && IsSpace(s[|s| - 1]) then TrimEnd(s[..|s| - 1]) else s
  }

  function Trim(s: string): string {
    TrimEnd(TrimStart(s))
  }

  function UpperChar(c: char): char {
    if 'a' <= c <= 'z' then c - 32 as char else c
  }

  function AsciiUpper(s: string): (r: string)
    ensures |r| == |s| && forall i :: 0 <= i < |s| ==> r[i] == UpperChar(s[i])
  {
    seq(|s|, i requires 0 <= i < |s| => UpperChar(s[i]))
  }

  predicate IsNameChar(c: char) {
    'A' <= c <= 'Z' || '0' <= c <= '9' || c == '_'
  }

  function NameChar(c: char): char {
    if 'a' <= c <= 'z' then c - 32 as char else if IsNameChar(c) then c else '_'
  }

  function NormalizeFieldName(name: string): (r: string)
    ensures forall i :: 0 <= i < |r| ==> IsNameChar(r[i])
  {
    var t := Trim(name);
    seq(|t|, i requires 0 <= i < |t| => NameChar(t[i]))
  }

  /** Line ends of all three kinds become single spaces. */
  function OnOneLine(s: string): string {
    if s == "" then ""
    else if |s| >= 2 && s[0] == '\r' && s[1] == '\n' then " " + OnOneLine(s[2..])
    else if s[0] == '\r' || s[0] == '\n' then " " + OnOneLine(s[1..])
    else [s[0]] + OnOneLine(s[1..])
  }

  function Digit(n: nat): char
    requires n < 10
  {
    '0' + n as char
  }

  function Decimal(n: nat): string {
    if n < 10 then [Digit(n)] else Decimal(n / 10) + [Digit(n % 10)]
  }

  predicate IsDigit(c: char) {
    '0' <= c <= '9'
  }

  /** The number that some digits write. */
  function Number(s: string): Option<nat> {
    if s == "" then Some(0)
    else if !IsDigit(s[|s| - 1]) then None
    else match Number(s[..|s| - 1])
         case None => None
         case Some(n) => Some(n * 10 + (s[|s| - 1] as int - '0' as int))
  }

  const USIZE_LIMIT: nat := 0x1_0000_0000_0000_0000

  /** A length: at least one digit, perhaps after a plus sign, below the limit of the machine. */
  function ParseUsize(s: string): Option<nat> {
    var digits := if s != "" && s[0] == '+' then s[1..] else s;
    match Number(digits)
    case None => None
    case Some(n) => if digits == "" || n >= USIZE_LIMIT then None else Some(n)
  }

  function BeforeColon(s: string): string {
    if s == "" || s[0] == ':' then "" else [s[0]] + BeforeColon(s[1..])
  }

  function AfterColon(s: string): Option<string> {
    if s == "" then None else if s[0] == ':' then Some(s[1..]) else AfterColon(s[1..])
  }

  function ParseTag(tag: string): Option<(string, nat)> {
    match AfterColon(tag)
    case None => None
    case Some(rest) =>
      match ParseUsize(Trim(BeforeColon(rest)))
      case None => None
      case Some(length) => Some((NormalizeFieldName(BeforeColon(tag)), length))
  }

  // ----- printing -----

  function SerializeField(name: string, value: string): string {
    "<" + NormalizeFieldName(name) + ":" + Decimal(|Encode(OnOneLine(value))|) + ">" + OnOneLine(value)
  }

  function RenderFields(fields: seq<(string, string)>): string {
    if fields == [] then ""
    else RenderFields(fields[..|fields| - 1]) + SerializeField(fields[|fields| - 1].0, fields[|fields| - 1].1)
  }

  function RenderRecords(records: seq<seq<(string, string)>>): string {
    if records == [] then ""
    else RenderRecords(records[..|records| - 1]) + RenderFields(records[|records| - 1]) + "<EOR>\n"
  }

  function TitleWords(): string {
    "Log73 ADIF Export"
  }

  function Title(): string {
    TitleWords() + "\n"
  }

  function Header(version: string): string {
    Title() + SerializeField("ADIF_VER", "3.1.0") + SerializeField("PROGRAMID", "Log73")
    + SerializeField("PROGRAMVERSION", version) + "<EOH>\n"
  }

  /** The fields in some order, each once. */
  ghost predicate ListsFields(order: seq<(string, string)>, fields: Fields) {
    && (forall i :: 0 <= i < |order| ==> order[i].0 in fields && fields[order[i].0] == order[i].1)
    && (forall k :: k in fields ==> (k, fields[k]) in order)
    && (forall i, j :: 0 <= i < j < |order| ==> order[i].0 != order[j].0)
  }

  // ----- parsing -----

  datatype State = State(
    line: nat,
    inHeader: bool,
    pending: Fields,
    pendingLine: Option<nat>,
    current: Fields,
    currentLine: Option<nat>,
    records: seq<Record>)

  const START := State(1, true, map[], None, map[], None, [])

  function Newlines(bytes: seq<Byte>): nat {
    if bytes == [] then 0 else (if bytes[0] == NEWLINE then 1 else 0) + Newlines(bytes[1..])
  }

  /** How far it is to the end of the tag. */
  function TagEnd(bytes: seq<Byte>): (r: Option<nat>)
    ensures r.Some? ==> r.value < |bytes| && bytes[r.value] == CLOSE && CLOSE !in bytes[..r.value]
  {
    if bytes == [] then None
    else if bytes[0] == CLOSE then Some(0)
    else match TagEnd(bytes[1..])
         case None => None
         case Some(n) =>
           assert bytes[..n + 1] == [bytes[0]] + bytes[1..][..n];
           Some(n + 1)
  }

  function LineOr(line: Option<nat>, other: nat): nat {
    if line.Some? then line.value else other
  }

  function EndOfRecord(st: State, tagLine: nat): State {
    if st.inHeader then
      if st.pending == map[] then st
      else st.(records := st.records + [Record(LineOr(st.pendingLine, tagLine), st.pending)], pending := map[])
    else
      if st.current == map[] then st
      else st.(records := st.records + [Record(LineOr(st.currentLine, tagLine), st.current)],
               current := map[], currentLine := None)
  }

  function TakeField(st: State, tagLine: nat, name: string, value: string): State {
    if st.inHeader then
      st.(pendingLine := if st.pending == map[] then Some(tagLine) else st.pendingLine,
          pending := st.pending[name := value])
    else
      st.(currentLine := if st.current == map[] then Some(tagLine) else st.currentLine,
          current := st.current[name := value])
  }

  /** What one tag does to the state, and how many of the bytes behind it belong to its value. */
  function TakeTag(st: State, tag: string, tagLine: nat, behind: seq<Byte>): (r: Result<(State, nat)>)
    ensures r.Ok? ==> r.value.1 <= |behind|
  {
    var normalized := AsciiUpper(Trim(tag));
    if normalized == "EOH" then Ok((st.(inHeader := false, pending := map[], pendingLine := None), 0))
    else if normalized == "EOR" then Ok((EndOfRecord(st, tagLine), 0))
    else match ParseTag(tag)
         case None => Err(tagLine, InvalidTag)
         case Some((name, length)) =>
           if length > |behind| then Err(tagLine, TruncatedField) else
             match Decode(behind[..length])
             case None => Err(tagLine, FieldNotUtf8)
             case Some(value) =>
               if name == "" then Err(tagLine, EmptyName)
               else Ok((TakeField(st.(line := st.line + Newlines(behind[..length])), tagLine, name, Trim(value)), length))
  }

  /** Reads the rest of a file. */
  function ParseFrom(rest: seq<Byte>, st: State): Result<State>
    decreases |rest|
  {
    if rest == [] then Ok(st)
    else if rest[0] != OPEN then ParseFrom(rest[1..], if rest[0] == NEWLINE then st.(line := st.line + 1) else st)
    else match TagEnd(rest[1..])
         case None => Err(st.line, UnterminatedTag)
         case Some(n) =>
           match Decode(rest[1..][..n])
           case None => Err(st.line, TagNotUtf8)
           case Some(tag) =>
             var behind := rest[n + 2..];
             match TakeTag(st.(line := st.line + Newlines(rest[1..][..n])), tag, st.line, behind)
             case Err(line, problem) => Err(line, problem)
             case Ok((next, taken)) => ParseFrom(behind[taken..], next)
  }

  /** A record that the end of the file cuts short still counts. */
  function Finish(st: State): seq<Record> {
    if st.current != map[] then st.records + [Record(LineOr(st.currentLine, st.line), st.current)]
    else if st.inHeader && st.pending != map[] then st.records + [Record(LineOr(st.pendingLine, st.line), st.pending)]
    else st.records
  }

  function ParseRecords(text: string): Result<seq<Record>> {
    match ParseFrom(Encode(text), START)
    case Err(line, problem) => Err(line, problem)
    case Ok(st) => Ok(Finish(st))
  }
}
