/**
 * The audit-log CSV export: a header line of the six column names, then one
 * record per log in input order. Every record field is enclosed in double quotes
 * with each embedded quote doubled (section 2, rules 5 to 7 of RFC 4180); fields
 * are separated by "," and lines by "\n". A decoder for that format is given
 * beside the encoder so that the export can be shown to lose nothing.
 */
module AuditCsv {
  import opened Wrappers

  /** An audit log entry with every column already rendered as text. */
  datatype AuditLog = AuditLog(
    id: string,
    action: string,
    userId: string,
    resourceId: Option<string>,
    metadata: string,
    createdAt: string)

  const HeaderFields: seq<string> := ["id", "action", "userId", "resourceId", "metadata", "createdAt"]

  /** The parts with `sep` between consecutive ones. */
  function Join(parts: seq<string>, sep: string): string
  {
    if |parts| == 0 then ""
    else if |parts| == 1 then parts[0]
    else parts[0] + sep + Join(parts[1..], sep)
  }

  /** Every quote of `e` is the first of a doubled pair. */
  predicate QuotesPaired(e: string)
    decreases |e|
  {
    if e == [] then true
    else if e[0] == '"' then |e| >= 2 && e[1] == '"' && QuotesPaired(e[2..])
    else QuotesPaired(e[1..])
  }

  /** The value with every `"` doubled. */
  function Escape(v: string): (e: string)
    ensures |e| >= |v|
    ensures QuotesPaired(e)
  {
    if v == [] then ""
    else
      var rest := Escape(v[1..]);
      if v[0] == '"' then
        assert ("\"\"" + rest)[2..] == rest;
        "\"\"" + rest
      else
        assert ([v[0]] + rest)[1..] == rest;
        [v[0]] + rest
  }

  /** One field as the export writes it: quoted, with embedded quotes doubled. */
  function QuoteField(v: string): (f: string)
    ensures |f| >= 2 && f[0] == '"' && f[|f| - 1] == '"'
  {
    "\"" + Escape(v) + "\""
  }

  /** Between its enclosing quotes a field has no unpaired quote. */
  lemma QuotedFieldIsPaired(v: string)
    ensures var f := QuoteField(v); QuotesPaired(f[1..|f| - 1])
  {
    var f := QuoteField(v);
    assert f[1..|f| - 1] == Escape(v);
  }

  /** The six values a log contributes, in column order; a missing resource id is empty. */
  function Fields(log: AuditLog): (fs: seq<string>)
    ensures |fs| == |HeaderFields|
    ensures fs[0] == log.id && fs[1] == log.action && fs[2] == log.userId
    ensures fs[4] == log.metadata && fs[5] == log.createdAt
    ensures log.resourceId.None? ==> fs[3] == ""
    ensures log.resourceId.Some? ==> fs[3] == log.resourceId.value
  {
    [log.id, log.action, log.userId, log.resourceId.GetOr(""), log.metadata, log.createdAt]
  }

  /** A field written as is (`quoted` false) or quoted. */
  function Encode(v: string, quoted: bool): string
  {
    if quoted then QuoteField(v) else v
  }

  function Encoded(vals: seq<string>, quoted: bool): (es: seq<string>)
    ensures |es| == |vals|
  {
    if vals == [] then [] else [Encode(vals[0], quoted)] + Encoded(vals[1..], quoted)
  }

  function EncodeRecord(vals: seq<string>, quoted: bool): string
  {
    Join(Encoded(vals, quoted), ",")
  }

  function HeaderLine(): string
  {
    EncodeRecord(HeaderFields, false)
  }

  function Row(log: AuditLog): string
  {
    EncodeRecord(Fields(log), true)
  }

  function Rows(logs: seq<AuditLog>): (rows: seq<string>)
    ensures |rows| == |logs|
  {
    seq(|logs|, i requires 0 <= i < |logs| => Row(logs[i]))
  }

  /** The whole export: the header line followed by one line per log. */
  function Csv(logs: seq<AuditLog>): string
  {
    Join([HeaderLine()] + Rows(logs), "\n")
  }

  /** The records the export stands for: the header names, then each log's fields. */
  function Records(logs: seq<AuditLog>): (records: seq<seq<string>>)
    ensures |records| == |logs|
  {
    seq(|logs|, i requires 0 <= i < |logs| => Fields(logs[i]))
  }

  /** Builds the export line by line, as the controller's loop does. */
  method ExportCsv(logs: seq<AuditLog>) returns (csv: string)
    ensures csv == Csv(logs)
    ensures ParseRows(csv) == Some([HeaderFields] + Records(logs))
  {
    var header := HeaderLine();
    var csvRows := [header];
    for i := 0 to |logs|
      invariant csvRows == [header] + Rows(logs[..i])
    {
      RowsGrow(header, logs, i);
      csvRows := csvRows + [Row(logs[i])];
    }
    assert logs[..|logs|] == logs;
    csv := Join(csvRows, "\n");
    ExportRoundTrip(logs);
  }

  /** One more log adds its row at the end of the lines. */
  lemma RowsGrow(header: string, logs: seq<AuditLog>, i: nat)
    requires i < |logs|
    ensures [header] + Rows(logs[..i + 1]) == [header] + Rows(logs[..i]) + [Row(logs[i])]
  {
    assert Rows(logs[..i + 1]) == Rows(logs[..i]) + [Row(logs[i])];
  }

  /** Unquoted encoding leaves the values as they are. */
  lemma {:induction false} EncodedPlain(vals: seq<string>)
    ensures Encoded(vals, false) == vals
  {
    if vals != [] {
      EncodedPlain(vals[1..]);
      assert [vals[0]] + vals[1..] == vals;
    }
  }

  /** The first line is the six column names joined by ",". */
  lemma HeaderIsJoinedNames()
    ensures HeaderLine() == Join(HeaderFields, ",")
  {
    EncodedPlain(HeaderFields);
  }

  lemma HeaderNamesArePlain()
    ensures forall i :: 0 <= i < |HeaderFields| ==> Plain(HeaderFields[i])
  {
    assert Plain("id");
    assert Plain("action");
    assert Plain("userId");
    assert Plain("resourceId");
    assert Plain("metadata");
    assert Plain("createdAt");
  }

  // ---------------------------------------------------------------------------
  // Decoding

  /** Reads a quoted field's body up to its closing quote; returns the value and what follows. */
  function ParseQuotedBody(s: string): (r: Option<(string, string)>)
    ensures r.Some? ==> |r.value.1| < |s|
    decreases |s|
  {
    if s == [] then None
    else if s[0] == '"' then
      if |s| >= 2 && s[1] == '"' then
        match ParseQuotedBody(s[2..])
        case None => None
        case Some((v, rest)) => Some(("\"" + v, rest))
      else Some(("", s[1..]))
    else
      match ParseQuotedBody(s[1..])
      case None => None
      case Some((v, rest)) => Some(([s[0]] + v, rest))
  }

  /** Reads an unquoted field up to the next "," or "\n". */
  function ParsePlain(s: string): (r: (string, string))
    ensures r.0 + r.1 == s
  {
    if s == [] || s[0] == ',' || s[0] == '\n' then ("", s)
    else
      var (v, rest) := ParsePlain(s[1..]);
      ([s[0]] + v, rest)
  }

  function ParseField(s: string): (r: Option<(string, string)>)
    ensures r.Some? ==> |r.value.1| <= |s|
  {
    if |s| > 0 && s[0] == '"' then ParseQuotedBody(s[1..])
    else var (v, rest) := ParsePlain(s); Some((v, rest))
  }

  /** Reads ","-separated fields up to the end of the line. */
  function ParseRecord(s: string): (r: Option<(seq<string>, string)>)
    ensures r.Some? ==> |r.value.0| > 0 && |r.value.1| <= |s|
    decreases |s|
  {
    match ParseField(s)
    case None => None
    case Some((v, rest)) =>
      if |rest| > 0 && rest[0] == ',' then
        match ParseRecord(rest[1..])
        case None => None
        case Some((vs, rest')) => Some(([v] + vs, rest'))
      else Some(([v], rest))
  }

  /** Reads "\n"-separated records to the end of the text. */
  function ParseRows(s: string): (r: Option<seq<seq<string>>>)
    ensures r.Some? ==> |r.value| > 0
    decreases |s|
  {
    match ParseRecord(s)
    case None => None
    case Some((fields, rest)) =>
      if rest == [] then Some([fields])
      else if rest[0] == '\n' then
        match ParseRows(rest[1..])
        case None => None
        case Some(records) => Some([fields] + records)
      else None
  }

  /** A value that can be written without quotes. */
  predicate Plain(v: string)
  {
    forall i :: 0 <= i < |v| ==> v[i] != ',' && v[i] != '\n' && v[i] != '"'
  }

  predicate FieldEnd(rest: string)
  {
    rest == [] || rest[0] == ',' || rest[0] == '\n'
  }

  /** Decoding an escaped body and its closing quote recovers the value. */
  lemma {:induction false} EscapeRoundTrip(v: string, rest: string)
    requires rest == [] || rest[0] != '"'
    ensures ParseQuotedBody(Escape(v) + "\"" + rest) == Some((v, rest))
  {
    if v == [] {
      assert Escape(v) + "\"" + rest == "\"" + rest;
    } else {
      EscapeRoundTrip(v[1..], rest);
      if v[0] == '"' {
        EscapeQuoteStep(v, rest);
      } else {
        EscapeCharStep(v, rest);
      }
    }
  }

  /** A value starting with a quote: its doubled quote decodes back to one. */
  lemma EscapeQuoteStep(v: string, rest: string)
    requires v != [] && v[0] == '"'
    requires ParseQuotedBody(Escape(v[1..]) + "\"" + rest) == Some((v[1..], rest))
    ensures ParseQuotedBody(Escape(v) + "\"" + rest) == Some((v, rest))
  {
    var tail := Escape(v[1..]) + "\"" + rest;
    assert Escape(v) + "\"" + rest == "\"\"" + tail;
    DoubledQuoteStep(tail, v[1..], rest);
    assert "\"" + v[1..] == v;
  }

  /** A value starting with another character: it decodes back to itself. */
  lemma EscapeCharStep(v: string, rest: string)
    requires v != [] && v[0] != '"'
    requires ParseQuotedBody(Escape(v[1..]) + "\"" + rest) == Some((v[1..], rest))
    ensures ParseQuotedBody(Escape(v) + "\"" + rest) == Some((v, rest))
  {
    var tail := Escape(v[1..]) + "\"" + rest;
    assert Escape(v) + "\"" + rest == [v[0]] + tail;
    OtherCharStep(v[0], tail, v[1..], rest);
    assert [v[0]] + v[1..] == v;
  }

  /** A doubled quote inside a quoted body reads as one quote. */
  lemma DoubledQuoteStep(tail: string, w: string, rest: string)
    requires ParseQuotedBody(tail) == Some((w, rest))
    ensures ParseQuotedBody("\"\"" + tail) == Some(("\"" + w, rest))
  {
    assert ("\"\"" + tail)[2..] == tail;
  }

  /** Any other character inside a quoted body reads as itself. */
  lemma OtherCharStep(c: char, tail: string, w: string, rest: string)
    requires c != '"'
    requires ParseQuotedBody(tail) == Some((w, rest))
    ensures ParseQuotedBody([c] + tail) == Some(([c] + w, rest))
  {
    assert ([c] + tail)[1..] == tail;
  }

  lemma {:induction false} PlainRoundTrip(v: string, rest: string)
    requires Plain(v) && FieldEnd(rest)
    ensures ParsePlain(v + rest) == (v, rest)
  {
    if v == [] {
      assert v + rest == rest;
    } else {
      assert (v + rest)[1..] == v[1..] + rest;
      PlainRoundTrip(v[1..], rest);
      assert [v[0]] + v[1..] == v;
    }
  }

  /** A field decodes back to its value, quoted or (when it needs no quotes) plain. */
  lemma FieldRoundTrip(v: string, quoted: bool, rest: string)
    requires !quoted ==> Plain(v)
    requires FieldEnd(rest)
    ensures ParseField(Encode(v, quoted) + rest) == Some((v, rest))
  {
    if quoted {
      EscapeRoundTrip(v, rest);
      assert Encode(v, quoted) + rest == "\"" + (Escape(v) + "\"" + rest);
    } else {
      PlainRoundTrip(v, rest);
    }
  }

  /** A record of two or more fields is its first field, a comma, and the record of the others. */
  lemma RecordSplits(vals: seq<string>, quoted: bool, rest: string)
    requires |vals| >= 2
    ensures EncodeRecord(vals, quoted) + rest
         == Encode(vals[0], quoted) + ("," + (EncodeRecord(vals[1..], quoted) + rest))
  {
    var es := Encoded(vals, quoted);
    assert es[1..] == Encoded(vals[1..], quoted);
  }

  /** A record decodes back to its values; the line must end there. */
  lemma {:induction false} RecordRoundTrip(vals: seq<string>, quoted: bool, rest: string)
    requires |vals| > 0
    requires !quoted ==> forall i :: 0 <= i < |vals| ==> Plain(vals[i])
    requires rest == [] || rest[0] == '\n'
    ensures ParseRecord(EncodeRecord(vals, quoted) + rest) == Some((vals, rest))
  {
    if |vals| == 1 {
      FieldRoundTrip(vals[0], quoted, rest);
      assert [vals[0]] == vals;
    } else {
      var tail := EncodeRecord(vals[1..], quoted);
      RecordSplits(vals, quoted, rest);
      FieldRoundTrip(vals[0], quoted, "," + (tail + rest));
      assert ("," + (tail + rest))[1..] == tail + rest;
      RecordRoundTrip(vals[1..], quoted, rest);
      assert [vals[0]] + vals[1..] == vals;
    }
  }

  function QuotedLines(records: seq<seq<string>>): (lines: seq<string>)
    ensures |lines| == |records|
  {
    seq(|records|, i requires 0 <= i < |records| => EncodeRecord(records[i], true))
  }

  /** Quoted records joined by "\n" decode back to the records, in order. */
  lemma {:induction false} RowsRoundTrip(records: seq<seq<string>>)
    requires |records| > 0
    requires forall i :: 0 <= i < |records| ==> |records[i]| > 0
    ensures ParseRows(Join(QuotedLines(records), "\n")) == Some(records)
  {
    var lines := QuotedLines(records);
    if |records| == 1 {
      RecordRoundTrip(records[0], true, "");
      assert lines[0] + "" == lines[0];
      assert Join(lines, "\n") == lines[0];
      assert [records[0]] == records;
    } else {
      assert lines[1..] == QuotedLines(records[1..]);
      var tail := Join(lines[1..], "\n");
      assert Join(lines, "\n") == lines[0] + ("\n" + tail);
      RecordRoundTrip(records[0], true, "\n" + tail);
      assert ("\n" + tail)[1..] == tail;
      RowsRoundTrip(records[1..]);
      assert [records[0]] + records[1..] == records;
    }
  }

  /** A plain header line followed by quoted records decodes to the header and the records. */
  lemma DocumentRoundTrip(header: seq<string>, records: seq<seq<string>>)
    requires |header| > 0 && forall i :: 0 <= i < |header| ==> Plain(header[i])
    requires forall i :: 0 <= i < |records| ==> |records[i]| > 0
    ensures ParseRows(Join([EncodeRecord(header, false)] + QuotedLines(records), "\n")) == Some([header] + records)
  {
    var first := EncodeRecord(header, false);
    var lines := [first] + QuotedLines(records);
    if records == [] {
      RecordRoundTrip(header, false, "");
      assert first + "" == first;
      assert lines == [first];
      assert Join(lines, "\n") == first;
      assert [header] + records == [header];
    } else {
      assert lines[1..] == QuotedLines(records);
      var tail := Join(QuotedLines(records), "\n");
      assert Join(lines, "\n") == first + ("\n" + tail);
      RecordRoundTrip(header, false, "\n" + tail);
      assert ("\n" + tail)[1..] == tail;
      RowsRoundTrip(records);
    }
  }

  /** The export decodes to the header names followed by each log's six fields, in order. */
  lemma ExportRoundTrip(logs: seq<AuditLog>)
    ensures ParseRows(Csv(logs)) == Some([HeaderFields] + Records(logs))
  {
    HeaderNamesArePlain();
    assert Rows(logs) == QuotedLines(Records(logs));
    DocumentRoundTrip(HeaderFields, Records(logs));
  }

  /** A log without a resource id is written exactly like one whose resource id is empty. */
  lemma MissingResourceIsEmptyField(log: AuditLog)
    requires log.resourceId.None?
    ensures Row(log) == Row(log.(resourceId := Some("")))
    ensures QuoteField(Fields(log)[3]) == "\"\""
  {
  }
}
