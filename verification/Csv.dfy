/** The usage report as CSV (web/src/components/usage-report.tsx), and a reader for section 2 of RFC 4180. */
module Csv {
  import opened Basics
  import opened Usage

  const HEADER := ["Machine", "Platform", "Hours", "Sessions", "From", "To"]

  /** A character that forces a field to be quoted. */
  predicate Special(c: char) {
    c == '"' || c == ',' || c == '\r' || c == '\n'
  }

  predicate NeedsQuotes(value: string) {
    exists c :: c in value && Special(c)
  }

  /** `replaceAll('"', '""')`. */
  function Doubled(value: string): string {
    if value == "" then ""
    else (if value[0] == '"' then ['"', '"'] else [value[0]]) + Doubled(value[1..])
  }

  function EscapeCsv(value: string): string {
    if NeedsQuotes(value) then ['"'] + Doubled(value) + ['"'] else value
  }

  function JoinFields(row: seq<string>): string {
    if row == [] then ""
    else if |row| == 1 then EscapeCsv(row[0])
    else EscapeCsv(row[0]) + [','] + JoinFields(row[1..])
  }

  function JoinRows(rows: seq<seq<string>>): string {
    if rows == [] then ""
    else if |rows| == 1 then JoinFields(rows[0])
    else JoinFields(rows[0]) + ['\r', '\n'] + JoinRows(rows[1..])
  }

  /** The table behind the text; numbers and instants are formatted by the caller's functions. */
  function RowsOf(machines: seq<MachineUsage>, from: string, to: string,
                  decimalHours: nat -> string, count: nat -> string): seq<seq<string>> {
    [HEADER] + seq(|machines|, i requires 0 <= i < |machines| =>
      [machines[i].name, machines[i].platform, decimalHours(machines[i].usedSeconds),
       count(machines[i].sessionCount), from, to])
  }

  function BuildCsv(machines: seq<MachineUsage>, from: string, to: string,
                    decimalHours: nat -> string, count: nat -> string): string {
    JoinRows(RowsOf(machines, from, to, decimalHours, count))
  }

  // The reader.

  /** A field that is not quoted runs up to the next special character. */
  function ReadPlain(text: string): (r: (string, string))
    ensures |r.1| <= |text|
  {
    if text == "" || Special(text[0]) then ("", text)
    else var (value, rest) := ReadPlain(text[1..]); ([text[0]] + value, rest)
  }

  /** Inside quotes: a doubled quote is one quote, a single one ends the field. */
  function ReadQuoted(text: string): (r: Option<(string, string)>)
    ensures r.Some? ==> |r.value.1| < |text|
  {
    if text == "" then None
    else if text[0] != '"' then
      match ReadQuoted(text[1..])
      case None => None
      case Some((value, rest)) => Some(([text[0]] + value, rest))
    else if |text| > 1 && text[1] == '"' then
      match ReadQuoted(text[2..])
      case None => None
      case Some((value, rest)) => Some((['"'] + value, rest))
    else Some(("", text[1..]))
  }

  function ReadField(text: string): (r: Option<(string, string)>)
    ensures r.Some? ==> |r.value.1| <= |text|
  {
    if text != "" && text[0] == '"' then ReadQuoted(text[1..]) else Some(ReadPlain(text))
  }

  function ReadRecord(text: string): (r: Option<(seq<string>, string)>)
    ensures r.Some? ==> |r.value.1| <= |text|
    decreases |text|
  {
    match ReadField(text)
    case None => None
    case Some((field, rest)) =>
      if rest != "" && rest[0] == ',' then
        match ReadRecord(rest[1..])
        case None => None
        case Some((fields, rest')) => Some(([field] + fields, rest'))
      else Some(([field], rest))
  }

  /** Records end with CRLF; after the last one it is optional. */
  function ReadCsv(text: string): Option<seq<seq<string>>>
    decreases |text|
  {
    match ReadRecord(text)
    case None => None
    case Some((record, rest)) =>
      if rest == "" || rest == "\r\n" then Some([record])
      else if |rest| >= 2 && rest[0] == '\r' && rest[1] == '\n' then
        match ReadCsv(rest[2..])
        case None => None
        case Some(records) => Some([record] + records)
      else None
  }

  // Reading back.

  /** What may follow a field. */
  predicate EndsField(tail: string) {
    tail == "" || tail[0] == ',' || tail[0] == '\r'
  }

  lemma {:induction false} PlainReadsBack(value: string, tail: string)
    requires !NeedsQuotes(value) && EndsField(tail)
    ensures ReadPlain(value + tail) == (value, tail)
  {
    if value == "" {
      assert value + tail == tail;
    } else {
      assert !Special(value[0]);
      assert forall c :: c in value[1..] ==> c in value;
      assert (value + tail)[1..] == value[1..] + tail;
      PlainReadsBack(value[1..], tail);
      assert [value[0]] + value[1..] == value;
    }
  }

  lemma {:induction false} QuotedReadsBack(value: string, tail: string)
    requires EndsField(tail)
    ensures ReadQuoted(Doubled(value) + ['"'] + tail) == Some((value, tail))
  {
    var text := Doubled(value) + ['"'] + tail;
    if value == "" {
      assert text == ['"'] + tail;
    } else {
      QuotedReadsBack(value[1..], tail);
      assert [value[0]] + value[1..] == value;
      var rest := Doubled(value[1..]) + ['"'] + tail;
      if value[0] == '"' {
        assert text == ['"', '"'] + rest;
        assert text[2..] == rest;
      } else {
        assert text == [value[0]] + rest;
        assert text[1..] == rest;
      }
    }
  }

  lemma PlainFieldReadsBack(value: string, tail: string)
    requires !NeedsQuotes(value) && EndsField(tail)
    ensures ReadField(value + tail) == Some((value, tail))
  {
    PlainReadsBack(value, tail);
    var text := value + tail;
    assert text != "" ==> text[0] != '"' by {
      if value != "" {
        assert value[0] in value && text[0] == value[0];
      } else {
        assert text == tail;
      }
    }
  }

  lemma {:induction false} QuotedFieldReadsBack(value: string, tail: string)
    requires EndsField(tail)
    ensures ReadField(['"'] + Doubled(value) + ['"'] + tail) == Some((value, tail))
  {
    QuotedReadsBack(value, tail);
    var body := Doubled(value) + ['"'] + tail;
    assert ['"'] + Doubled(value) + ['"'] + tail == ['"'] + body;
    ReadQuotedField(body);
  }

  lemma {:induction false} ReadQuotedField(body: string)
    ensures ReadField(['"'] + body) == ReadQuoted(body)
  {
    assert (['"'] + body)[1..] == body;
  }

  lemma FieldReadsBack(value: string, tail: string)
    requires EndsField(tail)
    ensures ReadField(EscapeCsv(value) + tail) == Some((value, tail))
  {
    if NeedsQuotes(value) {
      QuotedFieldReadsBack(value, tail);
    } else {
      PlainFieldReadsBack(value, tail);
    }
  }

  /** How a record goes on after its first field. */
  lemma {:induction false} ReadRecordStep(text: string, field: string, rest: string)
    requires ReadField(text) == Some((field, rest))
    ensures rest == "" || rest[0] != ',' ==> ReadRecord(text) == Some(([field], rest))
    ensures rest != "" && rest[0] == ',' && ReadRecord(rest[1..]).Some? ==>
              ReadRecord(text) == Some(([field] + ReadRecord(rest[1..]).value.0, ReadRecord(rest[1..]).value.1))
  {
  }

  /** A field and its comma go in front of a record that reads back. */
  lemma {:induction false} FieldBeforeRecord(escaped: string, field: string, more: string, fields: seq<string>,
                                             tail: string)
    requires ReadField(escaped + [','] + more) == Some((field, [','] + more))
    requires ReadRecord(more) == Some((fields, tail))
    ensures ReadRecord(escaped + [','] + more) == Some(([field] + fields, tail))
  {
    assert ([','] + more)[1..] == more;
    ReadRecordStep(escaped + [','] + more, field, [','] + more);
  }

  lemma {:induction false} RecordReadsBack(row: seq<string>, tail: string)
    requires row != [] && (tail == "" || tail[0] == '\r')
    ensures ReadRecord(JoinFields(row) + tail) == Some((row, tail))
  {
    var field, escaped := row[0], EscapeCsv(row[0]);
    assert [field] + row[1..] == row;
    if |row| == 1 {
      FieldReadsBack(field, tail);
      ReadRecordStep(escaped + tail, field, tail);
      assert [field] == row;
    } else {
      var more := JoinFields(row[1..]) + tail;
      RecordReadsBack(row[1..], tail);
      FieldReadsBack(field, [','] + more);
      assert escaped + ([','] + more) == escaped + [','] + more == JoinFields(row) + tail;
      FieldBeforeRecord(escaped, field, more, row[1..], tail);
    }
  }

  lemma {:induction false} JoinedNotEmpty(row: seq<string>)
    requires |row| >= 2
    ensures JoinFields(row) != "" && JoinFields(row) != "\r\n"
  {
    var text := JoinFields(row);
    assert text[|EscapeCsv(row[0])|] == ',';
  }

  /** How a file goes on after its first record. */
  lemma {:induction false} ReadCsvStep(text: string, record: seq<string>, rest: string)
    requires ReadRecord(text) == Some((record, rest))
    ensures rest == "" ==> ReadCsv(text) == Some([record])
    ensures |rest| > 2 && rest[..2] == "\r\n" && ReadCsv(rest[2..]).Some? ==>
              ReadCsv(text) == Some([record] + ReadCsv(rest[2..]).value)
  {
    if |rest| > 2 && rest[..2] == "\r\n" {
      assert rest[0] == rest[..2][0] && rest[1] == rest[..2][1];
    }
  }

  /** Any table of records with at least two fields reads back exactly. */
  lemma {:induction false} TableReadsBack(rows: seq<seq<string>>)
    requires rows != [] && forall i :: 0 <= i < |rows| ==> |rows[i]| >= 2
    ensures ReadCsv(JoinRows(rows)) == Some(rows)
  {
    if |rows| == 1 {
      RecordReadsBack(rows[0], "");
      assert JoinFields(rows[0]) + "" == JoinFields(rows[0]);
      ReadCsvStep(JoinRows(rows), rows[0], "");
      assert rows == [rows[0]];
    } else {
      var more := JoinRows(rows[1..]);
      var rest := ['\r', '\n'] + more;
      RecordReadsBack(rows[0], rest);
      TableReadsBack(rows[1..]);
      JoinedNotEmpty(rows[1]);
      assert |more| > 0;
      assert rest[2..] == more && rest[..2] == "\r\n";
      assert JoinRows(rows) == JoinFields(rows[0]) + rest;
      ReadCsvStep(JoinRows(rows), rows[0], rest);
      assert [rows[0]] + rows[1..] == rows;
    }
  }

  /**
    CSV round trip: reading the export back gives a header and then, machine by machine, its name,
    platform, hours, sessions and the window, whatever quotes, commas and line breaks they contain.
   */
  lemma CsvRoundTrip(machines: seq<MachineUsage>, from: string, to: string,
                     decimalHours: nat -> string, count: nat -> string)
    ensures var records := ReadCsv(BuildCsv(machines, from, to, decimalHours, count));
            && records.Some? && |records.value| == |machines| + 1
            && records.value[0] == ["Machine", "Platform", "Hours", "Sessions", "From", "To"]
            && forall i :: 0 <= i < |machines| ==>
                 records.value[i + 1] == [machines[i].name, machines[i].platform, decimalHours(machines[i].usedSeconds),
                                          count(machines[i].sessionCount), from, to]
  {
    TableReadsBack(RowsOf(machines, from, to, decimalHours, count));
  }

  // No character too many.

  function Quotes(value: string): nat {
    if value == "" then 0 else (if value[0] == '"' then 1 else 0) + Quotes(value[1..])
  }

  lemma {:induction false} DoubledLength(value: string)
    ensures |Doubled(value)| == |value| + Quotes(value)
  {
    if value != "" {
      DoubledLength(value[1..]);
    }
  }

  /** A field is quoted only where it must be, and then grows by its quotes and two more. */
  lemma {:induction false} EscapedOnlyIfSpecial(value: string)
    ensures (forall c :: c in value ==> c != '"' && c != ',' && c != '\r' && c != '\n') ==> EscapeCsv(value) == value
    ensures !(forall c :: c in value ==> c != '"' && c != ',' && c != '\r' && c != '\n') ==>
              |EscapeCsv(value)| == |value| + Quotes(value) + 2
  {
    DoubledLength(value);
    if c :| c in value && Special(c) {
      assert NeedsQuotes(value);
    }
  }

  function FieldsLength(row: seq<string>): nat {
    if row == [] then 0 else |EscapeCsv(row[0])| + FieldsLength(row[1..])
  }

  function RowsLength(rows: seq<seq<string>>): nat {
    if rows == [] then 0 else FieldsLength(rows[0]) + Max(|rows[0]| - 1, 0) + RowsLength(rows[1..])
  }

  lemma {:induction false} RowLength(row: seq<string>)
    requires row != []
    ensures |JoinFields(row)| == FieldsLength(row) + |row| - 1
  {
    if |row| > 1 {
      RowLength(row[1..]);
    }
  }

  /** Between fields one comma, between records two characters, and nothing before, between or after. */
  lemma {:induction false} TextLength(rows: seq<seq<string>>)
    requires rows != [] && forall i :: 0 <= i < |rows| ==> rows[i] != []
    ensures |JoinRows(rows)| == RowsLength(rows) + 2 * (|rows| - 1)
  {
    RowLength(rows[0]);
    if |rows| > 1 {
      TextLength(rows[1..]);
    }
  }
}
