/**
 * The trust report as comma-separated values, and a reader for the grammar of section 2 of RFC 4180.
 *
 * The RFC ends a line with a carriage return and a line feed, the report with a bare line feed. So
 * the reader comes in two modes: strict, as the RFC has it, in which no report reads at all; and
 * tolerant of a bare line feed, in which every report reads back as the rows it was written from.
 */
module CsvReport {
  import opened Wrappers
  import opened Text

  // ---------------------------------------------------------------------------------------
  // Writing

  predicate Trigger(c: char) {
    c == '=' || c == '+' || c == '-' || c == '@' || c == '\t' || c == '\r'
  }

  /** A field that would start a formula gets an apostrophe in front. */
  function Neutralized(s: string): string {
    if s != [] && Trigger(s[0]) then ['\''] + s else s
  }

  predicate NeedsQuotes(s: string) {
    ',' in s || '"' in s || '\n' in s || '\r' in s
  }

  function DoubleQuotes(s: string): string {
    if s == [] then [] else (if s[0] == '"' then ['"', '"'] else [s[0]]) + DoubleQuotes(s[1..])
  }

  function Quoted(s: string): string {
    ['"'] + DoubleQuotes(s) + ['"']
  }

  function CsvField(s: string): string {
    var n := Neutralized(s);
    if NeedsQuotes(n) then Quoted(n) else n
  }

  /** Signed decimal. */
  function Number(n: int): string {
    if n < 0 then ['-'] + Decimal(-n) else Decimal(n)
  }

  datatype UserRow = UserRow(
    name: string, following: int, followers: int, friends: int, posts: int, replies: int,
    collections: int, bookmarks: int, tagged: int, tags: int, uniqueTags: int)

  const Missing := UserRow("", 0, 0, 0, 0, 0, 0, 0, 0, 0, 0)

  const Header: seq<string> := [
    "id", "name", "score", "followers", "following", "friends", "posts", "replies", "tagged", "tags",
    "unique_tags", "bookmarks", "collections"]

  /** A score with its user's id; the score is kept as the text the formatter gives it. */
  datatype Score = Score(id: string, score: string)

  /** A column of a row: text that is escaped, or a number written as it is. */
  datatype Column = Escaped(text: string) | Raw(text: string)
  {
    function Written(): string { if Escaped? then CsvField(text) else text }

    /** The field it should read back as. */
    function Meaning(): string { if Escaped? then Neutralized(text) else text }

    predicate Writable() { Raw? ==> !NeedsQuotes(text) }
  }

  /** The counts of a row, in header order. */
  function Counts(d: UserRow): seq<int> {
    [d.followers, d.following, d.friends, d.posts, d.replies, d.tagged, d.tags, d.uniqueTags, d.bookmarks, d.collections]
  }

  function Numbers(counts: seq<int>): seq<Column> {
    seq(|counts|, i requires 0 <= i < |counts| => Raw(Number(counts[i])))
  }

  /** The columns of a score's row, in header order. */
  function Columns(s: Score, d: UserRow): (columns: seq<Column>)
    ensures |columns| == 13
  {
    [Escaped(s.id), Escaped(d.name), Raw(s.score)] + Numbers(Counts(d))
  }

  function Meanings(columns: seq<Column>): seq<string> {
    seq(|columns|, i requires 0 <= i < |columns| => columns[i].Meaning())
  }

  /** Columns joined by commas and ended by a line feed. */
  function LineOf(columns: seq<Column>): string
    requires columns != []
  {
    columns[0].Written() + if |columns| == 1 then ['\n'] else [','] + LineOf(columns[1..])
  }

  /** The rows of the details query by id; a later row for an id replaces an earlier. */
  function DetailsOf(rows: seq<(string, UserRow)>): map<string, UserRow> {
    if rows == [] then map[]
    else DetailsOf(rows[..|rows| - 1])[rows[|rows| - 1].0 := rows[|rows| - 1].1]
  }

  function Details(rows: seq<(string, UserRow)>, id: string): UserRow {
    if id in DetailsOf(rows) then DetailsOf(rows)[id] else Missing
  }

  /** What the report should hold: the header and one record per score, in order. */
  function Records(scores: seq<Score>, rows: seq<(string, UserRow)>): seq<seq<string>> {
    if scores == [] then [Header]
    else
      var last := scores[|scores| - 1];
      Records(scores[..|scores| - 1], rows) + [Meanings(Columns(last, Details(rows, last.id)))]
  }

  // ---------------------------------------------------------------------------------------
  // Reading

  datatype Mode =
    | StartOfField
    | Plain
    | InQuotes
    | QuoteInQuotes
    | AfterReturn
    | Malformed

  /** A reader part of the way: complete records, the fields of this one, the text of this field. */
  datatype Reader = Reader(strict: bool, records: seq<seq<string>>, fields: seq<string>, text: string, mode: Mode)

  function Begin(strict: bool): Reader {
    Reader(strict, [], [], "", StartOfField)
  }

  function EndField(r: Reader): Reader {
    r.(fields := r.fields + [r.text], text := "", mode := StartOfField)
  }

  function EndRecord(r: Reader): Reader {
    Reader(r.strict, r.records + [r.fields + [r.text]], [], "", StartOfField)
  }

  /** A line feed without a carriage return before it. */
  function BareLineFeed(r: Reader): Reader {
    if r.strict then r.(mode := Malformed) else EndRecord(r)
  }

  function Read1(r: Reader, c: char): Reader {
    match r.mode
    case StartOfField =>
      if c == '"' then r.(mode := InQuotes) else ReadPlain(r, c)
    case Plain => if c == '"' then r.(mode := Malformed) else ReadPlain(r, c)
    case InQuotes => if c == '"' then r.(mode := QuoteInQuotes) else r.(text := r.text + [c])
    case QuoteInQuotes =>
      if c == '"' then r.(text := r.text + ['"'], mode := InQuotes)
      else if c == ',' then EndField(r)
      else if c == '\n' then BareLineFeed(r)
      else if c == '\r' then r.(mode := AfterReturn)
      else r.(mode := Malformed)
    case AfterReturn => if c == '\n' then EndRecord(r) else r.(mode := Malformed)
    case Malformed => r
  }

  function ReadPlain(r: Reader, c: char): Reader {
    if c == ',' then EndField(r)
    else if c == '\n' then BareLineFeed(r)
    else if c == '\r' then r.(mode := AfterReturn)
    else r.(text := r.text + [c], mode := Plain)
  }

  function ReadAll(r: Reader, s: string): Reader
    decreases |s|
  {
    if s == [] then r else ReadAll(Read1(r, s[0]), s[1..])
  }

  /** The records of a text, whose last one may lack its line break; none when it breaks the grammar. */
  function Parse(strict: bool, s: string): Option<seq<seq<string>>> {
    var r := ReadAll(Begin(strict), s);
    match r.mode
    case Malformed | InQuotes | AfterReturn => None
    case StartOfField => Some(if r.fields == [] then r.records else r.records + [r.fields + [r.text]])
    case Plain | QuoteInQuotes => Some(r.records + [r.fields + [r.text]])
  }

  lemma {:induction false} ReadConcat(r: Reader, a: string, b: string)
    ensures ReadAll(r, a + b) == ReadAll(ReadAll(r, a), b)
    decreases |a|
  {
    if a == [] {
      assert a + b == b;
    } else {
      assert (a + b)[0] == a[0] && (a + b)[1..] == a[1..] + b;
      ReadConcat(Read1(r, a[0]), a[1..], b);
    }
  }

  /** Text with nothing to quote reads as itself. */
  lemma {:induction false} ReadPlainText(r: Reader, s: string)
    requires r.mode.StartOfField? || r.mode.Plain?
    requires !NeedsQuotes(s)
    ensures ReadAll(r, s) == r.(text := r.text + s, mode := if s == [] then r.mode else Plain)
    decreases |s|
  {
    if s != [] {
      var next := r.(text := r.text + [s[0]], mode := Plain);
      assert s[0] in s && forall c :: c in s[1..] ==> c in s;
      assert Read1(r, s[0]) == next;
      ReadPlainText(next, s[1..]);
      assert r.text + [s[0]] + s[1..] == r.text + s;
    } else {
      assert r.text + s == r.text;
    }
  }

  lemma {:induction false} ReadDoubledOne(r: Reader, c: char)
    requires r.mode.InQuotes?
    ensures ReadAll(r, if c == '"' then ['"', '"'] else [c]) == r.(text := r.text + [c])
  {
    if c == '"' {
      ReadConcat(r, ['"'], ['"']);
      assert ['"'] + ['"'] == ['"', '"'];
      ReadOne(r, '"');
      ReadOne(r.(mode := QuoteInQuotes), '"');
    } else {
      ReadOne(r, c);
    }
  }

  /** Inside quotes, doubled quotes read as single ones and everything else as itself. */
  lemma {:induction false} ReadDoubled(r: Reader, s: string)
    requires r.mode.InQuotes?
    ensures ReadAll(r, DoubleQuotes(s)) == r.(text := r.text + s)
    decreases |s|
  {
    if s == [] {
      assert r.text + s == r.text;
    } else {
      var next := r.(text := r.text + [s[0]]);
      var first := if s[0] == '"' then ['"', '"'] else [s[0]];
      ReadConcat(r, first, DoubleQuotes(s[1..]));
      ReadDoubledOne(r, s[0]);
      ReadDoubled(next, s[1..]);
      hide ReadAll;
      assert r.text + [s[0]] + s[1..] == r.text + s;
    }
  }

  /** A quoted or plain field, then a comma or a line feed, reads as the field; a strict reader stops at the line feed. */
  lemma {:induction false} ReadField(r: Reader, column: Column, end: char)
    requires r.mode.StartOfField? && r.text == "" && (end == ',' || end == '\n') && column.Writable()
    ensures var after := ReadAll(r, column.Written() + [end]);
            if end == ',' then after == EndField(r.(text := column.Meaning()))
            else if r.strict then after.mode.Malformed?
            else after == EndRecord(r.(text := column.Meaning()))
  {
    var n := column.Meaning();
    ReadConcat(r, column.Written(), [end]);
    ReadOne(ReadAll(r, column.Written()), end);
    if column.Escaped? && NeedsQuotes(n) {
      var inside := r.(mode := InQuotes);
      ReadConcat(r, ['"'], DoubleQuotes(n) + ['"']);
      assert ['"'] + (DoubleQuotes(n) + ['"']) == Quoted(n);
      ReadOne(r, '"');
      ReadConcat(inside, DoubleQuotes(n), ['"']);
      ReadDoubled(inside, n);
      ReadOne(inside.(text := n), '"');
      assert "" + n == n;
    } else {
      ReadPlainText(r, n);
      assert "" + n == n;
    }
  }

  lemma ReadOne(r: Reader, c: char)
    ensures ReadAll(r, [c]) == Read1(r, c)
  {
  }

  /** A written line reads as one more record. */
  lemma {:induction false} ReadLine(r: Reader, columns: seq<Column>)
    requires r.mode.StartOfField? && r.text == "" && columns != [] && !r.strict
    requires forall i :: 0 <= i < |columns| ==> columns[i].Writable()
    ensures ReadAll(r, LineOf(columns)) == Reader(false, r.records + [r.fields + Meanings(columns)], [], "", StartOfField)
    decreases |columns|
  {
    hide CsvField, Neutralized, Read1, ReadAll;
    var first := columns[0];
    if |columns| == 1 {
      ReadField(r, first, '\n');
      assert Meanings(columns) == [first.Meaning()];
    } else {
      var head, rest := first.Written() + [','], columns[1..];
      ReadConcat(r, head, LineOf(rest));
      assert LineOf(columns) == head + LineOf(rest);
      ReadField(r, first, ',');
      var next := EndField(r.(text := first.Meaning()));
      ReadLine(next, rest);
      assert Meanings(columns) == [first.Meaning()] + Meanings(rest);
      assert next.fields + Meanings(rest) == r.fields + Meanings(columns);
    }
  }

  /** A strict reader gets no further than the end of a written line. */
  lemma {:induction false} StrictLine(r: Reader, columns: seq<Column>)
    requires r.mode.StartOfField? && r.text == "" && columns != [] && r.strict
    requires forall i :: 0 <= i < |columns| ==> columns[i].Writable()
    ensures ReadAll(r, LineOf(columns)).mode.Malformed?
    decreases |columns|
  {
    hide CsvField, Neutralized, Read1, ReadAll;
    var first := columns[0];
    if |columns| == 1 {
      ReadField(r, first, '\n');
    } else {
      var head, rest := first.Written() + [','], columns[1..];
      ReadConcat(r, head, LineOf(rest));
      assert LineOf(columns) == head + LineOf(rest);
      ReadField(r, first, ',');
      StrictLine(EndField(r.(text := first.Meaning())), rest);
    }
  }

  lemma {:induction false} MalformedStays(r: Reader, s: string)
    requires r.mode.Malformed?
    ensures ReadAll(r, s) == r
    decreases |s|
  {
    if s != [] {
      MalformedStays(r, s[1..]);
    }
  }

  lemma ColumnsWritable(s: Score, d: UserRow)
    requires !NeedsQuotes(s.score)
    ensures forall i :: 0 <= i < |Columns(s, d)| ==> Columns(s, d)[i].Writable()
  {
  }

  // ---------------------------------------------------------------------------------------
  // The report

  /** The first line, cut after each comma. */
  const HeaderParts: seq<string> := [
    "id,", "name,", "score,", "followers,", "following,", "friends,", "posts,", "replies,", "tagged,",
    "tags,", "unique_tags,", "bookmarks,", "collections\n"]

  function HeaderLine(): string {
    Concat(HeaderParts)
  }

  function Concat(parts: seq<string>): string {
    if parts == [] then "" else parts[0] + Concat(parts[1..])
  }

  function Raws(fields: seq<string>): seq<Column> {
    seq(|fields|, i requires 0 <= i < |fields| => Raw(fields[i]))
  }

  /** The state of the reader after whole records. */
  function Whole(records: seq<seq<string>>): Reader {
    Reader(false, records, [], "", StartOfField)
  }

  lemma LineFrom(columns: seq<Column>, k: nat)
    requires k + 1 < |columns|
    ensures LineOf(columns[k..]) == columns[k].Written() + [','] + LineOf(columns[k + 1..])
  {
  }

  /** Each part of the first line is a name of the header and what ends it. */
  lemma HeaderPart(k: nat)
    requires k < |Header|
    ensures |HeaderParts| == |Header|
    ensures HeaderParts[k] == Header[k] + [if k + 1 < |Header| then ',' else '\n']
  {
  }

  lemma {:induction false} HeaderEnds(columns: seq<Column>, k: nat)
    requires columns == Raws(Header) && k < |columns|
    ensures Concat(HeaderParts[k..]) == LineOf(columns[k..])
    decreases |columns| - k
  {
    HeaderPart(k);
    assert HeaderParts[k..][0] == HeaderParts[k] && HeaderParts[k..][1..] == HeaderParts[k + 1..];
    if k + 1 < |columns| {
      LineFrom(columns, k);
      HeaderEnds(columns, k + 1);
    } else {
      assert HeaderParts[k + 1..] == [];
      assert Concat([]) == "";
    }
  }

  lemma {:induction false} HeaderIsLine()
    ensures LineOf(Raws(Header)) == HeaderLine()
  {
    HeaderEnds(Raws(Header), 0);
    assert HeaderParts[0..] == HeaderParts && Raws(Header)[0..] == Raws(Header);
  }

  /** A line of plain fields reads as one record of them. */
  lemma {:induction false} PlainLineReads(fields: seq<string>)
    requires fields != [] && forall i :: 0 <= i < |fields| ==> !NeedsQuotes(fields[i])
    ensures ReadAll(Begin(false), LineOf(Raws(fields))) == Whole([fields])
  {
    hide LineOf, ReadAll;
    ReadLine(Begin(false), Raws(fields));
    assert [] + Meanings(Raws(fields)) == fields;
  }

  lemma {:induction false} HeaderReads()
    ensures ReadAll(Begin(false), HeaderLine()) == Whole([Header])
  {
    hide LineOf, ReadAll, HeaderLine;
    HeaderIsLine();
    forall i | 0 <= i < |Header| ensures !NeedsQuotes(Header[i]) {
      HeaderIsPlain(i);
    }
    PlainLineReads(Header);
  }

  /** Whatever follows the first line, a strict reader rejects it. */
  lemma {:induction false} StrictRejects(csv: string)
    requires HeaderLine() <= csv
    ensures Parse(true, csv) == None
  {
    hide LineOf, ReadAll, HeaderLine;
    HeaderIsLine();
    forall i | 0 <= i < |Header| ensures !NeedsQuotes(Header[i]) {
      HeaderIsPlain(i);
    }
    PlainLineStops(Header);
    var rest := csv[|HeaderLine()|..];
    assert csv == HeaderLine() + rest;
    ReadConcat(Begin(true), HeaderLine(), rest);
    MalformedStays(ReadAll(Begin(true), HeaderLine()), rest);
  }

  lemma {:induction false} PlainLineStops(fields: seq<string>)
    requires fields != [] && forall i :: 0 <= i < |fields| ==> !NeedsQuotes(fields[i])
    ensures ReadAll(Begin(true), LineOf(Raws(fields))).mode.Malformed?
  {
    hide LineOf, ReadAll;
    StrictLine(Begin(true), Raws(fields));
  }

  lemma HeaderIsPlain(k: nat)
    requires k < |Header|
    ensures !NeedsQuotes(Header[k])
  {
  }

  method BuildDetails(rows: seq<(string, UserRow)>) returns (details: map<string, UserRow>)
    ensures details == DetailsOf(rows)
  {
    details := map[];
    for i := 0 to |rows|
      invariant details == DetailsOf(rows[..i])
    {
      details := details[rows[i].0 := rows[i].1];
      assert rows[..i + 1][..i] == rows[..i];
    }
    assert rows[..|rows|] == rows;
  }

  /** `{score},{},...,{}` and a line feed. */
  method FormatNumbers(score: string, counts: seq<int>) returns (text: string)
    ensures text == LineOf([Raw(score)] + Numbers(counts))
  {
    var columns := [Raw(score)] + Numbers(counts);
    var i := |columns| - 1;
    text := columns[i].text + ['\n'];
    assert columns[i..] == [columns[i]];
    while i > 0
      invariant 0 <= i < |columns| && text == LineOf(columns[i..])
    {
      LineFrom(columns, i - 1);
      i := i - 1;
      text := columns[i].text + [','] + text;
    }
    assert columns[0..] == columns;
  }

  /** Pushes a score's row onto the report. */
  method PushRow(report: string, s: Score, d: UserRow) returns (csv: string)
    ensures csv == report + LineOf(Columns(s, d))
  {
    hide LineOf, CsvField, Columns, Numbers, Counts;
    csv := report;
    csv := csv + CsvField(s.id);
    csv := csv + [','];
    csv := csv + CsvField(d.name);
    csv := csv + [','];
    var numbers := FormatNumbers(s.score, Counts(d));
    csv := csv + numbers;
    LineSpelled(s, d);
  }

  /** A report so far: read with bare line feeds it is these records, and it begins with the first line. */
  ghost predicate Reads(csv: string, records: seq<seq<string>>) {
    ReadAll(Begin(false), csv) == Whole(records) && HeaderLine() <= csv
  }

  /**
   * Builds the report. Read with bare line feeds, it is the header and one record of thirteen
   * fields per score, in the order of the scores; read strictly, it breaks the grammar.
   */
  method WriteCsv(scores: seq<Score>, rows: seq<(string, UserRow)>) returns (csv: string)
    requires forall i :: 0 <= i < |scores| ==> !NeedsQuotes(scores[i].score)
    ensures Parse(false, csv) == Some(Records(scores, rows))
    ensures Parse(true, csv) == None
  {
    hide LineOf, ReadAll, HeaderLine, Header, Columns;
    var details := BuildDetails(rows);
    csv := HeaderLine();
    HeaderReads();
    for i := 0 to |scores|
      invariant Reads(csv, Records(scores[..i], rows))
    {
      hide Reads;
      var s := scores[i];
      var d := if s.id in details then details[s.id] else Missing;
      ghost var before := csv;
      csv := PushRow(csv, s, d);
      RecordReads(before, scores[..i], rows, s, d);
      assert scores[..i + 1] == scores[..i] + [s];
    }
    assert scores[..|scores|] == scores;
    StrictRejects(csv);
  }

  /** One more line after whole records reads as one more record. */
  lemma {:induction false} RecordReads(before: string, scores: seq<Score>, rows: seq<(string, UserRow)>, s: Score, d: UserRow)
    requires Reads(before, Records(scores, rows))
    requires d == Details(rows, s.id) && !NeedsQuotes(s.score)
    ensures Reads(before + LineOf(Columns(s, d)), Records(scores + [s], rows))
  {
    hide LineOf, ReadAll, HeaderLine;
    var columns := Columns(s, d);
    ReadConcat(Begin(false), before, LineOf(columns));
    ColumnsWritable(s, d);
    ReadLine(Whole(Records(scores, rows)), columns);
    assert (scores + [s])[..|scores|] == scores;
    assert [] + Meanings(columns) == Meanings(columns);
  }

  lemma {:induction false} LineSpelled(s: Score, d: UserRow)
    ensures LineOf(Columns(s, d))
         == CsvField(s.id) + [','] + (CsvField(d.name) + [','] + LineOf([Raw(s.score)] + Numbers(Counts(d))))
  {
    hide LineOf, CsvField, Neutralized, Header;
    var columns := Columns(s, d);
    LineFrom(columns, 0);
    LineFrom(columns, 1);
    assert columns[0..] == columns && columns[2..] == [Raw(s.score)] + Numbers(Counts(d));
  }

  /** The records are the header and one per score, in the order of the scores. */
  lemma {:induction false} RecordsAlign(scores: seq<Score>, rows: seq<(string, UserRow)>, i: nat)
    requires i < |scores|
    ensures var records := Records(scores, rows);
            |records| == |scores| + 1 && records[0] == Header
            && records[i + 1] == Meanings(Columns(scores[i], Details(rows, scores[i].id)))
  {
    hide Header, Columns, Meanings, Details;
    var rest := scores[..|scores| - 1];
    if i < |rest| {
      RecordsAlign(rest, rows, i);
    } else if rest != [] {
      RecordsAlign(rest, rows, 0);
    }
  }

  /** The characters that start a formula in a spreadsheet. */
  const TRIGGERS: set<char> := {'=', '+', '-', '@', '\t', '\r'}

  predicate StartsNoFormula(s: string) {
    s == [] || s[0] !in TRIGGERS
  }

  /** The field is the original, with an apostrophe in front when that starts a formula. */
  predicate Neutral(field: string, original: string) {
    field == if StartsNoFormula(original) then original else ['\''] + original
  }

  /** The text is a number in decimal, with a minus sign when it is negative. */
  predicate Spells(text: string, n: int) {
    var digits := if n < 0 && text != [] then text[1..] else text;
    (n < 0 ==> text != [] && text[0] == '-') && digits != [] && Digits(digits) && Value(digits) == if n < 0 then -n else n
  }

  lemma NumberSpells(n: int)
    ensures Spells(Number(n), n)
  {
    ValueOfDecimal(if n < 0 then -n else n);
    if n < 0 {
      assert Number(n)[1..] == Decimal(-n);
    }
  }

  /** Under its header name, a record has this count. */
  predicate Holds(record: seq<string>, k: nat, name: string, count: int) {
    k < |record| && k < |Header| && Header[k] == name && Spells(record[k], count)
  }

  /** Each of the thirteen fields is under its header name, and no id or name starts a formula. */
  lemma RecordShape(s: Score, d: UserRow)
    ensures var record := Meanings(Columns(s, d));
            && |record| == |Header| == 13
            && Header[0] == "id" && Header[1] == "name" && Header[2] == "score"
            && Neutral(record[0], s.id) && Neutral(record[1], d.name) && record[2] == s.score
            && StartsNoFormula(record[0]) && StartsNoFormula(record[1])
            && Holds(record, 3, "followers", d.followers)
            && Holds(record, 4, "following", d.following)
            && Holds(record, 5, "friends", d.friends)
            && Holds(record, 6, "posts", d.posts)
            && Holds(record, 7, "replies", d.replies)
            && Holds(record, 8, "tagged", d.tagged)
            && Holds(record, 9, "tags", d.tags)
            && Holds(record, 10, "unique_tags", d.uniqueTags)
            && Holds(record, 11, "bookmarks", d.bookmarks)
            && Holds(record, 12, "collections", d.collections)
  {
    HeaderNames();
    CountsAre(d);
    RecordTexts(s, d);
    hide Header, Columns, Meanings, Counts, Spells, Neutral, StartsNoFormula;
    forall k | 0 <= k < 10 ensures Spells(Meanings(Columns(s, d))[k + 3], Counts(d)[k]) {
      RecordCount(s, d, k);
    }
    assert forall k :: 3 <= k < 13 ==> Spells(Meanings(Columns(s, d))[k], Counts(d)[k - 3]);
  }

  lemma HeaderNames()
    ensures |Header| == 13 && Header[0] == "id" && Header[1] == "name" && Header[2] == "score"
    ensures Header[3] == "followers" && Header[4] == "following" && Header[5] == "friends" && Header[6] == "posts"
    ensures Header[7] == "replies" && Header[8] == "tagged" && Header[9] == "tags" && Header[10] == "unique_tags"
    ensures Header[11] == "bookmarks" && Header[12] == "collections"
  {
  }

  lemma CountsAre(d: UserRow)
    ensures var c := Counts(d);
            && |c| == 10 && c[0] == d.followers && c[1] == d.following && c[2] == d.friends && c[3] == d.posts
            && c[4] == d.replies && c[5] == d.tagged && c[6] == d.tags && c[7] == d.uniqueTags
            && c[8] == d.bookmarks && c[9] == d.collections
  {
  }

  lemma RecordTexts(s: Score, d: UserRow)
    ensures var record := Meanings(Columns(s, d));
            && |record| == 13 && Neutral(record[0], s.id) && Neutral(record[1], d.name) && record[2] == s.score
            && StartsNoFormula(record[0]) && StartsNoFormula(record[1])
  {
    hide Header;
  }

  lemma RecordCount(s: Score, d: UserRow, k: nat)
    requires k < 10
    ensures |Meanings(Columns(s, d))| == 13 && |Counts(d)| == 10
    ensures Spells(Meanings(Columns(s, d))[k + 3], Counts(d)[k])
  {
    hide Header, Spells, Number;
    NumberSpells(Counts(d)[k]);
  }

  /** The details of an id are those of its last row. */
  lemma {:induction false} DetailsAreLast(rows: seq<(string, UserRow)>, i: nat)
    requires i < |rows| && forall k :: i < k < |rows| ==> rows[k].0 != rows[i].0
    ensures Details(rows, rows[i].0) == rows[i].1
  {
    if i < |rows| - 1 {
      DetailsAreLast(rows[..|rows| - 1], i);
    }
  }

  /** And blank when it has none. */
  lemma {:induction false} DetailsMissing(rows: seq<(string, UserRow)>, id: string)
    requires forall k :: 0 <= k < |rows| ==> rows[k].0 != id
    ensures Details(rows, id) == Missing
  {
    if rows != [] {
      DetailsMissing(rows[..|rows| - 1], id);
    }
  }
}
