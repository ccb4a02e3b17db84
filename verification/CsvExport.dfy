/** The CSV export of the history view, and a reader for it.

    The reader follows section 2 of RFC 4180, except that a record may end in a bare LF
    (which is what the exporter writes) as well as in CRLF. The text that section allows is
    printable ASCII, and in quotes also CR and LF; a strict reader takes nothing else, a
    tolerant one takes every other character as it comes. */
module CsvExport {
  import opened Wrappers

  /** One exported point. The number and the date are held as the text they print as. */
  datatype Point = Point(
    deviceId: string, sensor: string, valueText: string, unit: string, timestampText: string,
    anomaly: bool)

  const HEADER := ["DeviceId", "Sensor", "Value", "Unit", "Timestamp", "Anomaly"]

  predicate Special(c: char) { c == ',' || c == '"' || c == '\n' }

  predicate Bare(field: string) {
    forall i | 0 <= i < |field| :: !Special(field[i])
  }

  // ---- The writer ----

  /** `escaped.replace("\"", "\"\"")`. */
  function Doubled(field: string): string {
    if field == "" then ""
    else (if field[0] == '"' then "\"\"" else [field[0]]) + Doubled(field[1..])
  }

  function Escape(field: string): string {
    if Bare(field) then field else "\"" + Doubled(field) + "\""
  }

  function Flag(b: bool): string { if b then "true" else "false" }

  /** Fields with a comma between them. */
  function Join(fields: seq<string>): string {
    if fields == [] then ""
    else if |fields| == 1 then fields[0]
    else fields[0] + ("," + Join(fields[1..]))
  }

  /** The text of one line, without its line end. */
  function Line(p: Point): string {
    Join([Escape(p.deviceId), Escape(p.sensor), p.valueText, Escape(p.unit), p.timestampText, Flag(p.anomaly)])
  }

  function Terminated(lines: seq<string>): string {
    if lines == [] then "" else lines[0] + ("\n" + Terminated(lines[1..]))
  }

  function LineTexts(points: seq<Point>): seq<string> {
    seq(|points|, i requires 0 <= i < |points| => Line(points[i]))
  }

  const HEADER_LINE := "DeviceId,Sensor,Value,Unit,Timestamp,Anomaly"

  function ExportText(points: seq<Point>): string {
    Terminated([HEADER_LINE] + LineTexts(points))
  }

  lemma {:induction false} TerminatedAppend(lines: seq<string>, line: string)
    ensures Terminated(lines + [line]) == Terminated(lines) + line + "\n"
  {
    if lines == [] {
      assert Terminated([line]) == line + ("\n" + Terminated([]));
    } else {
      TerminatedAppend(lines[1..], line);
      assert (lines + [line])[1..] == lines[1..] + [line];
    }
  }

  lemma Chain(a: string, b: string, c: string)
    ensures a + "," + b + "," + c == a + "," + (b + ("," + c))
  {
  }

  /** The commas written one field at a time. */
  lemma JoinSix(a: string, b: string, c: string, d: string, e: string, f: string)
    ensures Join([a, b, c, d, e, f]) == a + "," + b + "," + c + "," + d + "," + e + "," + f
  {
    var j1, j2, j3 := Join([f]), Join([e, f]), Join([d, e, f]);
    var j4, j5 := Join([c, d, e, f]), Join([b, c, d, e, f]);
    assert [e, f][1..] == [f] && [d, e, f][1..] == [e, f] && [c, d, e, f][1..] == [d, e, f];
    assert [b, c, d, e, f][1..] == [c, d, e, f] && [a, b, c, d, e, f][1..] == [b, c, d, e, f];
    Chain(a, b, j4);
    Chain(a + "," + b, c, j3);
    Chain(a + "," + b + "," + c, d, j2);
    Chain(a + "," + b + "," + c + "," + d, e, j1);
  }

  method EscapeCsv(field: string) returns (r: string)
    ensures r == Escape(field)
  {
    var i, special := 0, false;
    while i < |field|
      invariant 0 <= i <= |field|
      invariant special <==> !Bare(field[..i])
    {
      special := special || Special(field[i]);
      i := i + 1;
    }
    assert field[..|field|] == field;
    if !special { return field; }
    var escaped := "";
    i := |field|;
    while i > 0
      invariant 0 <= i <= |field|
      invariant escaped == Doubled(field[i..])
    {
      i := i - 1;
      escaped := (if field[i] == '"' then "\"\"" else [field[i]]) + escaped;
    }
    assert field[0..] == field;
    r := "\"" + escaped + "\"";
  }

  method ToText(points: seq<Point>) returns (out: string)
    ensures out == ExportText(points)
  {
    out := "" + HEADER_LINE + "\n";
    TerminatedAppend([], HEADER_LINE);
    assert [] + [HEADER_LINE] == [HEADER_LINE] + LineTexts(points[..0]);
    for i := 0 to |points|
      invariant out == Terminated([HEADER_LINE] + LineTexts(points[..i]))
    {
      var p := points[i];
      var device := EscapeCsv(p.deviceId);
      var sensor := EscapeCsv(p.sensor);
      var unit := EscapeCsv(p.unit);
      var line := device + "," + sensor + "," + p.valueText + "," + unit + "," + p.timestampText + ","
                  + (if p.anomaly then "true" else "false");
      out := out + line + "\n";
      LineAppends(points, i, line);
    }
    assert points[..|points|] == points;
  }

  lemma LineAppends(points: seq<Point>, i: nat, line: string)
    requires i < |points|
    requires line == Escape(points[i].deviceId) + "," + Escape(points[i].sensor) + "," + points[i].valueText + ","
                     + Escape(points[i].unit) + "," + points[i].timestampText + "," + Flag(points[i].anomaly)
    ensures Terminated([HEADER_LINE] + LineTexts(points[..i + 1]))
         == Terminated([HEADER_LINE] + LineTexts(points[..i])) + line + "\n"
  {
    var p := points[i];
    JoinSix(Escape(p.deviceId), Escape(p.sensor), p.valueText, Escape(p.unit), p.timestampText, Flag(p.anomaly));
    TerminatedAppend([HEADER_LINE] + LineTexts(points[..i]), line);
    assert [HEADER_LINE] + LineTexts(points[..i + 1]) == ([HEADER_LINE] + LineTexts(points[..i])) + [line];
  }

  // ---- The reader ----

  /** Length of the line end at the front of `s`, or 0. */
  function LineEnd(s: string): (n: nat)
    ensures n <= |s|
  {
    if |s| >= 1 && s[0] == '\n' then 1
    else if |s| >= 2 && s[0] == '\r' && s[1] == '\n' then 2
    else 0
  }

  /** TEXTDATA of section 2: printable ASCII but the quote and the comma. */
  predicate TextData(c: char) {
    c == ' ' || c == '!' || '#' <= c <= '+' || '-' <= c <= '~'
  }

  /** What a quoted field may hold; a quote stands there twice. */
  predicate QuotedData(c: char) {
    TextData(c) || c == ',' || c == '\r' || c == '\n' || c == '"'
  }

  /** An unquoted field: everything up to a comma or a line end, with no quote in it and,
      unless the reader is tolerant, nothing else than TEXTDATA. */
  function ReadPlain(s: string, tolerant: bool): (r: Option<(string, string)>)
    ensures r.Some? ==> |r.value.1| <= |s|
  {
    if s == "" || s[0] == ',' || LineEnd(s) > 0 then Some(("", s))
    else if s[0] == '"' || !(tolerant || TextData(s[0])) then None
    else
      match ReadPlain(s[1..], tolerant)
      case None => None
      case Some((text, rest)) => Some(([s[0]] + text, rest))
  }

  /** The rest of a quoted field, after its opening quote: two quotes stand for one. */
  function ReadQuoted(s: string, tolerant: bool): (r: Option<(string, string)>)
    ensures r.Some? ==> |r.value.1| <= |s|
    decreases |s|
  {
    if s == "" || !(tolerant || QuotedData(s[0])) then None
    else if s[0] != '"' then
      match ReadQuoted(s[1..], tolerant)
      case None => None
      case Some((text, rest)) => Some(([s[0]] + text, rest))
    else if |s| >= 2 && s[1] == '"' then
      match ReadQuoted(s[2..], tolerant)
      case None => None
      case Some((text, rest)) => Some(("\"" + text, rest))
    else Some(("", s[1..]))
  }

  function ReadField(s: string, tolerant: bool): (r: Option<(string, string)>)
    ensures r.Some? ==> |r.value.1| <= |s|
  {
    if s != "" && s[0] == '"' then ReadQuoted(s[1..], tolerant) else ReadPlain(s, tolerant)
  }

  /** The fields of one record, and what follows its line end. */
  function ReadRecord(s: string, tolerant: bool): (r: Option<(seq<string>, string)>)
    ensures r.Some? ==> |r.value.1| < |s| || s == ""
    decreases |s|
  {
    match ReadField(s, tolerant)
    case None => None
    case Some((text, rest)) =>
      if rest == "" then Some(([text], ""))
      else if LineEnd(rest) > 0 then Some(([text], rest[LineEnd(rest)..]))
      else if rest[0] != ',' then None
      else if rest[1..] == "" then Some(([text, ""], ""))
      else
        match ReadRecord(rest[1..], tolerant)
        case None => None
        case Some((fields, after)) => Some(([text] + fields, after))
  }

  function ReadCsv(s: string, tolerant: bool): Option<seq<seq<string>>>
    decreases |s|
  {
    if s == "" then Some([])
    else
      match ReadRecord(s, tolerant)
      case None => None
      case Some((fields, rest)) =>
        match ReadCsv(rest, tolerant)
        case None => None
        case Some(records) => Some([fields] + records)
  }

  // ---- The round trip ----

  function Record(p: Point): seq<string> {
    [p.deviceId, p.sensor, p.valueText, p.unit, p.timestampText, Flag(p.anomaly)]
  }

  function Records(points: seq<Point>): seq<seq<string>> {
    seq(|points|, i requires 0 <= i < |points| => Record(points[i]))
  }

  /** What a number and an ISO date print as: text that needs no quoting. */
  predicate Printable(points: seq<Point>) {
    forall i | 0 <= i < |points| ::
      Bare(points[i].valueText) && '\r' !in points[i].valueText
      && Bare(points[i].timestampText) && '\r' !in points[i].timestampText
  }

  /** The reader accepts the field as it is exported: every character of it may stand in a
      field of its kind, quoted or not. */
  predicate Accepted(field: string, tolerant: bool) {
    tolerant || (if Bare(field) then OnlyText(field) else OnlyQuoted(field))
  }

  predicate OnlyText(field: string) { forall i | 0 <= i < |field| :: TextData(field[i]) }

  predicate OnlyQuoted(field: string) { forall i | 0 <= i < |field| :: QuotedData(field[i]) }

  lemma OnlyTextSplit(field: string)
    requires field != ""
    ensures OnlyText(field) <==> TextData(field[0]) && OnlyText(field[1..])
  {
    assert forall i | 1 <= i < |field| :: field[i] == field[1..][i - 1];
  }

  lemma OnlyQuotedSplit(field: string)
    requires field != ""
    ensures OnlyQuoted(field) <==> QuotedData(field[0]) && OnlyQuoted(field[1..])
  {
    assert forall i | 1 <= i < |field| :: field[i] == field[1..][i - 1];
  }

  lemma {:induction false} PlainReadBack(field: string, rest: string, tolerant: bool)
    requires Bare(field) && rest != "" && rest[0] == ','
    ensures ReadPlain(field + rest, tolerant) == if tolerant || OnlyText(field) then Some((field, rest)) else None
  {
    var s := field + rest;
    if field == "" {
      assert s == rest;
    } else {
      assert !Special(field[0]) && s[0] == field[0];
      assert |s| >= 2 && (|field| >= 2 ==> !Special(field[1]) && s[1] == field[1]);
      assert |field| == 1 ==> s[1] == ',';
      assert s[1..] == field[1..] + rest;
      assert [field[0]] + field[1..] == field;
      hide OnlyText, TextData;
      OnlyTextSplit(field);
      PlainReadBack(field[1..], rest, tolerant);
    }
  }

  lemma {:induction false} QuotedReadBack(field: string, rest: string, tolerant: bool)
    requires rest == "" || rest[0] != '"'
    ensures ReadQuoted(Doubled(field) + ("\"" + rest), tolerant)
         == if tolerant || OnlyQuoted(field) then Some((field, rest)) else None
  {
    var s := Doubled(field) + ("\"" + rest);
    assert QuotedData('"');
    hide OnlyQuoted, QuotedData;
    if field == "" {
      assert s == "\"" + rest;
      assert s[1..] == rest;
      assert OnlyQuoted("") by { NothingQuoted(); }
    } else {
      QuotedReadBack(field[1..], rest, tolerant);
      OnlyQuotedSplit(field);
      var tail := Doubled(field[1..]) + ("\"" + rest);
      assert [field[0]] + field[1..] == field;
      if field[0] == '"' {
        assert s == "\"\"" + tail;
        assert s[2..] == tail;
      } else {
        assert s == [field[0]] + tail;
        assert s[1..] == tail;
      }
    }
  }

  lemma NothingQuoted()
    ensures OnlyQuoted("")
  {
  }

  lemma EscapedShape(field: string, rest: string)
    ensures Bare(field) ==> Escape(field) == field
    ensures !Bare(field) ==>
              var s := Escape(field) + rest;
              s != "" && s[0] == '"' && s[1..] == Doubled(field) + ("\"" + rest)
  {
    hide Doubled;
    if !Bare(field) {
      assert Escape(field) + rest == "\"" + (Doubled(field) + ("\"" + rest));
    }
  }

  /** Whatever a field contains, the reader gets it back and stops where it ends, or, if
      it does not accept it, fails. */
  lemma FieldReadBack(field: string, rest: string, tolerant: bool)
    requires rest != "" && rest[0] == ','
    ensures ReadField(Escape(field) + rest, tolerant) == if Accepted(field, tolerant) then Some((field, rest)) else None
  {
    hide Escape, Doubled, ReadPlain, ReadQuoted, OnlyText, OnlyQuoted;
    var s := Escape(field) + rest;
    EscapedShape(field, rest);
    if Bare(field) {
      PlainReadBack(field, rest, tolerant);
      if field != "" { assert s[0] == field[0] && !Special(field[0]); } else { assert s == rest; }
    } else {
      QuotedReadBack(field, rest, tolerant);
    }
  }

  /** The last field of a line must not end in CR, or it would run into the line end. */
  lemma {:induction false} LastReadBack(field: string, rest: string, tolerant: bool)
    requires Bare(field) && '\r' !in field
    ensures ReadPlain(field + ("\n" + rest), tolerant)
         == if tolerant || OnlyText(field) then Some((field, "\n" + rest)) else None
  {
    var s := field + ("\n" + rest);
    if field == "" {
      assert s == "\n" + rest;
    } else {
      assert s[0] == field[0] && !Special(field[0]) && field[0] in field;
      assert s[1..] == field[1..] + ("\n" + rest);
      assert [field[0]] + field[1..] == field;
      hide OnlyText, TextData;
      OnlyTextSplit(field);
      LastReadBack(field[1..], rest, tolerant);
    }
  }

  /** What is left after the first field of a record. */
  lemma RecordStep(text: string, field: string, tail: string, tolerant: bool)
    requires tail != ""
    ensures ReadField(text + ("," + tail), tolerant) == Some((field, "," + tail)) ==>
              ReadRecord(text + ("," + tail), tolerant)
              == match ReadRecord(tail, tolerant)
                 case None => None
                 case Some((fields, after)) => Some(([field] + fields, after))
    ensures ReadField(text + ("," + tail), tolerant).None? ==> ReadRecord(text + ("," + tail), tolerant).None?
  {
    assert ("," + tail)[1..] == tail;
  }

  function EscapeAll(fields: seq<string>): (r: seq<string>)
    ensures |r| == |fields|
  {
    seq(|fields|, i requires 0 <= i < |fields| => Escape(fields[i]))
  }

  predicate PlainLast(fields: seq<string>) {
    fields != [] && Bare(fields[|fields| - 1]) && '\r' !in fields[|fields| - 1]
  }

  predicate AllAccepted(fields: seq<string>, tolerant: bool) {
    forall i | 0 <= i < |fields| :: Accepted(fields[i], tolerant)
  }

  lemma AcceptedSplit(fields: seq<string>, tolerant: bool)
    requires fields != []
    ensures AllAccepted(fields, tolerant) <==> Accepted(fields[0], tolerant) && AllAccepted(fields[1..], tolerant)
  {
    hide Accepted;
    assert forall i | 1 <= i < |fields| :: fields[i] == fields[1..][i - 1];
    assert fields == [fields[0]] + fields[1..];
  }

  lemma RowStep(field: string, tail: string, end: string, tolerant: bool)
    requires tail + end != ""
    ensures ReadRecord((Escape(field) + ("," + tail)) + end, tolerant)
         == if !Accepted(field, tolerant) then None
            else
              match ReadRecord(tail + end, tolerant)
              case None => None
              case Some((fields, after)) => Some(([field] + fields, after))
  {
    hide *;
    assert (Escape(field) + ("," + tail)) + end == Escape(field) + ("," + (tail + end));
    FieldReadBack(field, "," + (tail + end), tolerant);
    RecordStep(Escape(field), field, tail + end, tolerant);
  }

  /** A line made of escaped fields is read back as those fields if every one of them is
      accepted, and not at all otherwise. */
  lemma {:induction false} RowReadBack(fields: seq<string>, rest: string, tolerant: bool)
    requires PlainLast(fields)
    ensures ReadRecord(Join(EscapeAll(fields)) + ("\n" + rest), tolerant)
         == if AllAccepted(fields, tolerant) then Some((fields, rest)) else None
  {
    var end := "\n" + rest;
    if |fields| == 1 {
      var f := fields[0];
      assert Join(EscapeAll(fields)) == f && fields == [f];
      LastReadBack(f, rest, tolerant);
      assert end[1..] == rest;
      if f != "" { assert (f + end)[0] == f[0] && !Special(f[0]); } else { assert f + end == end; }
    } else {
      hide ReadRecord, Accepted, AllAccepted, Escape, ReadPlain;
      RowReadBack(fields[1..], rest, tolerant);
      assert EscapeAll(fields)[1..] == EscapeAll(fields[1..]);
      RowStep(fields[0], Join(EscapeAll(fields[1..])), end, tolerant);
      AcceptedSplit(fields, tolerant);
      assert [fields[0]] + fields[1..] == fields;
    }
  }

  lemma LineIsEscapedRecord(p: Point)
    requires Bare(p.valueText) && Bare(p.timestampText)
    ensures Line(p) == Join(EscapeAll(Record(p))) && PlainLast(Record(p))
  {
    assert Bare(Flag(p.anomaly));
    assert EscapeAll(Record(p))
        == [Escape(p.deviceId), Escape(p.sensor), p.valueText, Escape(p.unit), p.timestampText, Flag(p.anomaly)];
  }

  lemma HeaderSpelled()
    ensures "DeviceId" + "," + "Sensor" + "," + "Value" + "," + "Unit" + "," + "Timestamp" + "," + "Anomaly"
         == HEADER_LINE
  {
  }

  lemma BareUnescaped(fields: seq<string>)
    requires forall i | 0 <= i < |fields| :: Bare(fields[i])
    ensures EscapeAll(fields) == fields
  {
  }

  lemma HeaderIsEscapedRecord()
    ensures HEADER_LINE == Join(EscapeAll(HEADER)) && PlainLast(HEADER)
  {
    HeaderSpelled();
    JoinSix("DeviceId", "Sensor", "Value", "Unit", "Timestamp", "Anomaly");
    assert Bare("DeviceId") && Bare("Sensor") && Bare("Value") && Bare("Unit") && Bare("Timestamp") && Bare("Anomaly");
    BareUnescaped(HEADER);
  }

  predicate EveryAccepted(records: seq<seq<string>>, tolerant: bool) {
    forall i | 0 <= i < |records| :: AllAccepted(records[i], tolerant)
  }

  lemma EveryAcceptedSplit(records: seq<seq<string>>, tolerant: bool)
    requires records != []
    ensures EveryAccepted(records, tolerant)
       <==> AllAccepted(records[0], tolerant) && EveryAccepted(records[1..], tolerant)
  {
    hide AllAccepted;
    assert forall i | 1 <= i < |records| :: records[i] == records[1..][i - 1];
    assert records == [records[0]] + records[1..];
  }

  lemma {:induction false} TerminatedReadBack(records: seq<seq<string>>, lines: seq<string>, tolerant: bool)
    requires |lines| == |records|
    requires forall i | 0 <= i < |lines| :: PlainLast(records[i]) && lines[i] == Join(EscapeAll(records[i]))
    ensures ReadCsv(Terminated(lines), tolerant) == if EveryAccepted(records, tolerant) then Some(records) else None
  {
    if lines != [] {
      hide ReadRecord, AllAccepted, EveryAccepted, Join;
      RowReadBack(records[0], Terminated(lines[1..]), tolerant);
      TerminatedReadBack(records[1..], lines[1..], tolerant);
      EveryAcceptedSplit(records, tolerant);
      assert [records[0]] + records[1..] == records;
    } else {
      assert records == [];
    }
  }

  lemma ReadsBackUnder(header: seq<string>, headerLine: string, points: seq<Point>, tolerant: bool)
    requires headerLine == Join(EscapeAll(header)) && PlainLast(header)
    requires Printable(points)
    ensures ReadCsv(Terminated([headerLine] + LineTexts(points)), tolerant)
         == if EveryAccepted([header] + Records(points), tolerant) then Some([header] + Records(points)) else None
  {
    forall i | 0 <= i < |points|
      ensures Line(points[i]) == Join(EscapeAll(Record(points[i]))) && PlainLast(Record(points[i]))
    {
      LineIsEscapedRecord(points[i]);
    }
    TerminatedReadBack([header] + Records(points), [headerLine] + LineTexts(points), tolerant);
  }

  /** The text is printable ASCII with CR and LF, and if it holds a carriage return it also
      holds a comma, a quote or a newline, for which it is quoted. */
  predicate AllowedText(text: string) {
    OnlyQuoted(text) && ('\r' in text ==> !Bare(text))
  }

  lemma AcceptedMeansAllowed(text: string)
    ensures Accepted(text, false) <==> AllowedText(text)
  {
    if Bare(text) && OnlyQuoted(text) && '\r' !in text {
      forall i | 0 <= i < |text| ensures TextData(text[i]) { assert QuotedData(text[i]) && !Special(text[i]) && text[i] in text; }
    }
  }

  predicate PointAllowed(p: Point) {
    && AllowedText(p.deviceId) && AllowedText(p.sensor) && AllowedText(p.unit)
    && AllowedText(p.valueText) && AllowedText(p.timestampText)
  }

  predicate AllowedTexts(points: seq<Point>) {
    forall i | 0 <= i < |points| :: PointAllowed(points[i])
  }

  lemma RecordAccepted(p: Point, tolerant: bool)
    ensures AllAccepted(Record(p), tolerant) <==> tolerant || PointAllowed(p)
  {
    var r := Record(p);
    assert OnlyText(Flag(p.anomaly));
    assert OnlyQuoted(Flag(p.anomaly));
    assert Accepted(Flag(p.anomaly), tolerant);
    AcceptedMeansAllowed(p.deviceId);
    AcceptedMeansAllowed(p.sensor);
    AcceptedMeansAllowed(p.unit);
    AcceptedMeansAllowed(p.valueText);
    AcceptedMeansAllowed(p.timestampText);
    assert tolerant ==> forall field: string :: Accepted(field, tolerant);
    hide Accepted, AllowedText, Flag;
    assert r[0] == p.deviceId && r[1] == p.sensor && r[2] == p.valueText && r[3] == p.unit && r[4] == p.timestampText;
  }

  lemma HeaderAccepted(tolerant: bool)
    ensures AllAccepted(HEADER, tolerant)
  {
    assert OnlyText("DeviceId") && OnlyText("Sensor") && OnlyText("Value");
    assert OnlyText("Unit") && OnlyText("Timestamp") && OnlyText("Anomaly");
    forall i | 0 <= i < |HEADER| ensures Accepted(HEADER[i], tolerant) {
      assert OnlyText(HEADER[i]);
      TextIsQuotable(HEADER[i]);
    }
  }

  lemma TextIsQuotable(text: string)
    requires OnlyText(text)
    ensures Accepted(text, false)
  {
  }

  lemma ExportAccepted(points: seq<Point>, tolerant: bool)
    ensures EveryAccepted([HEADER] + Records(points), tolerant) <==> tolerant || AllowedTexts(points)
  {
    var all := [HEADER] + Records(points);
    HeaderAccepted(tolerant);
    EveryAcceptedSplit(all, tolerant);
    assert all[1..] == Records(points);
    forall i | 0 <= i < |points| ensures AllAccepted(Records(points)[i], tolerant) <==> tolerant || PointAllowed(points[i]) {
      RecordAccepted(points[i], tolerant);
    }
    hide AllAccepted, Record, PointAllowed;
  }

  /** The header and one record of six fields per point, in order. */
  ghost predicate ReadAs(records: seq<seq<string>>, points: seq<Point>) {
    && |records| == |points| + 1
    && records[0] == ["DeviceId", "Sensor", "Value", "Unit", "Timestamp", "Anomaly"]
    && forall i | 0 <= i < |points| ::
         var p := points[i];
         records[i + 1] == [p.deviceId, p.sensor, p.valueText, p.unit, p.timestampText, if p.anomaly then "true" else "false"]
  }

  lemma RecordsReadAs(points: seq<Point>)
    ensures ReadAs([HEADER] + Records(points), points)
  {
  }

  /** A reader that takes every character as it comes reads the exported file back as the
      header and one six-field record per point, in order, with the device, sensor and unit
      text exactly as they were and "true" exactly for the anomalies. */
  lemma ExportReadsBack(points: seq<Point>)
    requires Printable(points)
    ensures ReadCsv(ExportText(points), true) == Some([HEADER] + Records(points))
    ensures ReadCsv(ExportText(points), true).Some? && ReadAs(ReadCsv(ExportText(points), true).value, points)
  {
    RecordsReadAs(points);
    hide ReadAs;
    HeaderIsEscapedRecord();
    ReadsBackUnder(HEADER, HEADER_LINE, points, true);
    ExportAccepted(points, true);
  }

  /** A reader that keeps to section 2 does so exactly when every text is printable ASCII
      with CR and LF, and every text with a carriage return is quoted for another reason;
      otherwise it rejects the file. */
  lemma StrictReaderReadsBackExactly(points: seq<Point>)
    requires Printable(points)
    ensures ReadCsv(ExportText(points), false) == Some([HEADER] + Records(points)) <==> AllowedTexts(points)
    ensures AllowedTexts(points) ==>
              ReadCsv(ExportText(points), false).Some? && ReadAs(ReadCsv(ExportText(points), false).value, points)
    ensures ReadCsv(ExportText(points), false).None? <==> !AllowedTexts(points)
  {
    RecordsReadAs(points);
    hide ReadAs;
    HeaderIsEscapedRecord();
    ReadsBackUnder(HEADER, HEADER_LINE, points, false);
    ExportAccepted(points, false);
  }

  /** A device named with a carriage return, which is exported as it is. */
  lemma CarriageReturnIsNotQuoted(p: Point)
    requires p.deviceId == "a\rb" && Printable([p])
    ensures Escape(p.deviceId) == "a\rb" && ReadCsv(ExportText([p]), false).None?
  {
    assert p.deviceId[1] == '\r' && Bare(p.deviceId);
    assert !PointAllowed([p][0]);
    hide ReadCsv, ExportText, Printable;
    StrictReaderReadsBackExactly([p]);
  }

  /** The unit of the temperature sensors, which quoting does not help either. */
  lemma DegreeSignIsNotText(p: Point)
    requires p.unit == "\U{B0}C" && Printable([p])
    ensures Escape(p.unit) == "\U{B0}C" && ReadCsv(ExportText([p]), false).None?
    ensures ReadCsv(ExportText([p]), true) == Some([HEADER, Record(p)])
  {
    assert p.unit[0] == '\U{B0}' && !QuotedData(p.unit[0]) && Bare(p.unit);
    assert !PointAllowed([p][0]);
    hide ReadCsv, ExportText, Printable;
    StrictReaderReadsBackExactly([p]);
    ExportReadsBack([p]);
    assert [HEADER] + Records([p]) == [HEADER, Record(p)];
  }

  lemma RecordInjective(p: Point, q: Point)
    requires Record(p) == Record(q)
    ensures p == q
  {
    var a, b := Record(p), Record(q);
    assert a[0] == b[0] && a[1] == b[1] && a[2] == b[2] && a[3] == b[3] && a[4] == b[4] && a[5] == b[5];
    assert Flag(true)[0] != Flag(false)[0];
  }

  /** Two different histories never export to the same file. */
  lemma ExportIsInjective(p: seq<Point>, q: seq<Point>)
    requires Printable(p) && Printable(q) && ExportText(p) == ExportText(q)
    ensures p == q
  {
    ExportReadsBack(p);
    ExportReadsBack(q);
    assert ([HEADER] + Records(p))[1..] == Records(p) && ([HEADER] + Records(q))[1..] == Records(q);
    assert |Records(p)| == |Records(q)|;
    forall i | 0 <= i < |p| ensures p[i] == q[i] {
      assert Records(p)[i] == Records(q)[i];
      RecordInjective(p[i], q[i]);
    }
  }
}
