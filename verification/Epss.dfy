/** The EPSS score feed: snapshot queries and the tolerant CSV parser.

    The CSV reader is a library and a parameter here: it yields records and parse errors, and
    `CsvRecords` says which ones on text that holds no quote. Number parsing is a parameter too. */
module Epss {
  import opened Base
  import opened Text

  datatype Score = Score(score: Float, percentile: Float)

  datatype Snapshot = Snapshot(scores: map<string, Score>, modelVersion: string, scoreDate: string)

  /** One result of reading the CSV stream; the end of the stream is the end of the sequence. */
  datatype ReadOutcome = Row(fields: seq<string>) | BadRow | ReadError

  datatype ParseError = PreambleFailed | NoHeader | BadHeader | ReadFailed | NoValidRows

  datatype Columns = Columns(cve: nat, epss: nat, percentile: nat)

  type NumberParser = string -> Option<Float>

  function LookupScore(s: Option<Snapshot>, cve: string): Option<Score> {
    if s.None? then None else Lookup(s.value.scores, NormalizeId(cve))
  }

  function Marker(s: Snapshot): (string, string) {
    (s.modelVersion, s.scoreDate)
  }

  /** What every parsed snapshot satisfies: at least one score, and keys in normal form. */
  predicate Parsed(s: Snapshot) {
    && s.scores != map[]
    && forall cve | cve in s.scores :: cve != "" && NormalizeId(cve) == cve
  }

  // ----- The preamble -----

  function PreambleFields(line: string): seq<string> {
    var t := TrimSpace(line);
    var body := if t != "" && t[0] == '#' then t[1..] else t;
    Split(TrimSpace(body), ',')
  }

  function PreambleField(field: string): Option<(string, string)> {
    match Cut(TrimSpace(field), ':')
    case None => None
    case Some(kv) => Some((TrimSpace(kv.0), TrimSpace(kv.1)))
  }

  /** The value of the last field with this name; empty when there is none. */
  function PreambleValue(fields: seq<string>, name: string): string {
    if fields == [] then ""
    else
      var last := PreambleField(fields[|fields| - 1]);
      if last.Some? && last.value.0 == name then last.value.1
      else PreambleValue(fields[..|fields| - 1], name)
  }

  /** One more field settles the value of its own name. */
  lemma PreambleNext(fields: seq<string>, i: nat, name: string)
    requires i < |fields|
    ensures var kv := PreambleField(fields[i]);
            PreambleValue(fields[..i + 1], name)
              == if kv.Some? && kv.value.0 == name then kv.value.1 else PreambleValue(fields[..i], name)
  {
    assert fields[..i + 1][..i] == fields[..i];
  }

  method ParsePreamble(line: string) returns (modelVersion: string, scoreDate: string)
    ensures modelVersion == PreambleValue(PreambleFields(line), "model_version")
    ensures scoreDate == PreambleValue(PreambleFields(line), "score_date")
  {
    var fields := PreambleFields(line);
    modelVersion, scoreDate := "", "";
    assert "model_version"[0] != "score_date"[0];
    for i := 0 to |fields|
      invariant modelVersion == PreambleValue(fields[..i], "model_version")
      invariant scoreDate == PreambleValue(fields[..i], "score_date")
    {
      PreambleNext(fields, i, "model_version");
      PreambleNext(fields, i, "score_date");
      var kv := PreambleField(fields[i]);
      if kv.Some? {
        if kv.value.0 == "model_version" {
          modelVersion := kv.value.1;
        } else if kv.value.0 == "score_date" {
          scoreDate := kv.value.1;
        }
      }
    }
    assert fields[..|fields|] == fields;
  }

  // ----- The header -----

  predicate Names(cell: string, name: string) {
    ToLower(TrimSpace(cell)) == name
  }

  /** The last column with this name, or -1. */
  function LastColumn(header: seq<string>, name: string): (c: int)
    ensures -1 <= c < |header|
    ensures c >= 0 ==> Names(header[c], name)
    ensures forall j | c < j < |header| :: !Names(header[j], name)
  {
    if header == [] then -1
    else if Names(header[|header| - 1], name) then |header| - 1
    else LastColumn(header[..|header| - 1], name)
  }

  function FindColumns(header: seq<string>): Option<Columns> {
    var c, e, p := LastColumn(header, "cve"), LastColumn(header, "epss"), LastColumn(header, "percentile");
    if c < 0 || e < 0 || p < 0 then None else Some(Columns(c, e, p))
  }

  method ColumnIndices(header: seq<string>) returns (r: Option<Columns>)
    ensures r == FindColumns(header)
  {
    var c, e, p := -1, -1, -1;
    for i := 0 to |header|
      invariant c == LastColumn(header[..i], "cve")
      invariant e == LastColumn(header[..i], "epss")
      invariant p == LastColumn(header[..i], "percentile")
    {
      assert header[..i + 1][..i] == header[..i];
      var name := ToLower(TrimSpace(header[i]));
      if name == "cve" {
        c := i;
      } else if name == "epss" {
        e := i;
      } else if name == "percentile" {
        p := i;
      }
    }
    assert header[..|header|] == header;
    r := if c < 0 || e < 0 || p < 0 then None else Some(Columns(c, e, p));
  }

  // ----- The rows -----

  function MaxColumn(cols: Columns): nat {
    var m := if cols.epss < cols.percentile then cols.percentile else cols.epss;
    if cols.cve < m then m else cols.cve
  }

  /** What a record contributes: an identifier and its score, or nothing when malformed. */
  function RowValue(cols: Columns, rec: ReadOutcome, parse: NumberParser): Option<(string, Score)> {
    if !rec.Row? || |rec.fields| <= MaxColumn(cols) then None
    else
      var score := parse(TrimSpace(rec.fields[cols.epss]));
      var percentile := parse(TrimSpace(rec.fields[cols.percentile]));
      var cve := NormalizeId(rec.fields[cols.cve]);
      if score.None? || percentile.None? || cve == "" then None
      else Some((cve, Score(score.value, percentile.value)))
  }

  function RowFold(cols: Columns, recs: seq<ReadOutcome>, parse: NumberParser): map<string, Score> {
    if recs == [] then map[]
    else
      var before := RowFold(cols, recs[..|recs| - 1], parse);
      match RowValue(cols, recs[|recs| - 1], parse)
      case None => before
      case Some(kv) => before[kv.0 := kv.1]
  }

  function ParsedRecords(marker: (string, string), recs: seq<ReadOutcome>, parse: NumberParser)
    : Result<Snapshot, ParseError>
  {
    if recs == [] || !recs[0].Row? then Failure(NoHeader)
    else match FindColumns(recs[0].fields)
      case None => Failure(BadHeader)
      case Some(cols) =>
        var scores := RowFold(cols, recs[1..], parse);
        if ReadError in recs[1..] then Failure(ReadFailed)
        else if scores == map[] then Failure(NoValidRows)
        else Success(Snapshot(scores, marker.0, marker.1))
  }

  method ParseRecords(marker: (string, string), recs: seq<ReadOutcome>, parse: NumberParser)
    returns (r: Result<Snapshot, ParseError>)
    ensures r == ParsedRecords(marker, recs, parse)
  {
    if recs == [] || !recs[0].Row? {
      return Failure(NoHeader);
    }
    var found := ColumnIndices(recs[0].fields);
    if found.None? {
      return Failure(BadHeader);
    }
    var cols := found.value;
    var maxCol := MaxColumn(cols);
    var scores: map<string, Score> := map[];
    ghost var rows := recs[1..];
    for i := 1 to |recs|
      invariant scores == RowFold(cols, rows[..i - 1], parse)
      invariant ReadError !in rows[..i - 1]
    {
      assert rows[..i][..i - 1] == rows[..i - 1] && rows[i - 1] == recs[i];
      if recs[i].ReadError? {
        assert rows[i - 1] in rows;
        return Failure(ReadFailed);
      }
      if recs[i].BadRow? || |recs[i].fields| <= maxCol {
        continue;
      }
      var rec := recs[i].fields;
      var score := parse(TrimSpace(rec[cols.epss]));
      var percentile := parse(TrimSpace(rec[cols.percentile]));
      if score.None? || percentile.None? {
        continue;
      }
      var cve := NormalizeId(rec[cols.cve]);
      if cve == "" {
        continue;
      }
      scores := scores[cve := Score(score.value, percentile.value)];
    }
    assert rows[..|rows|] == rows;
    if |scores| == 0 {
      return Failure(NoValidRows);
    }
    return Success(Snapshot(scores, marker.0, marker.1));
  }

  // ----- The stream -----

  predicate QuoteFree(text: string) {
    '"' !in text
  }

  /** The records of a line: none when it is blank; one carriage return at its end is dropped. */
  function LineRecords(line: string): seq<ReadOutcome> {
    var l := if line != "" && line[|line| - 1] == '\r' then line[..|line| - 1] else line;
    if l == "" then [] else [Row(Split(l, ','))]
  }

  function LinesRecords(lines: seq<string>): seq<ReadOutcome> {
    if lines == [] then [] else LineRecords(lines[0]) + LinesRecords(lines[1..])
  }

  function CsvRecords(text: string): seq<ReadOutcome>
    requires QuoteFree(text)
  {
    LinesRecords(Split(text, '\n'))
  }

  /** A stream: the text it delivers, and whether it then fails rather than ends. */
  datatype Stream = Stream(text: string, fails: bool)

  /** The CSV reader run over a stream to its end. */
  type CsvReader = Stream -> seq<ReadOutcome>

  /** A reader that reads quote-free text line by line; quoted text, and a stream that fails, it
      reads as it likes. */
  ghost predicate ReadsQuoteFree(read: CsvReader) {
    forall text {:trigger read(Stream(text, false))} | QuoteFree(text) :: read(Stream(text, false)) == CsvRecords(text)
  }

  /** The preamble line, when the stream starts with one, and the rest of the stream. */
  function SplitPreamble(text: string): (r: (Option<string>, string))
    ensures QuoteFree(text) ==> QuoteFree(r.1)
  {
    if text == "" || text[0] != '#' then (None, text)
    else
      var i := IndexOf(text, '\n');
      if i == |text| then (Some(text), "") else (Some(text[..i + 1]), text[i + 1..])
  }

  function PreambleMarker(preamble: Option<string>): (string, string) {
    if preamble.None? then ("", "")
    else
      var fields := PreambleFields(preamble.value);
      (PreambleValue(fields, "model_version"), PreambleValue(fields, "score_date"))
  }

  /** The stream fails before the end of the preamble line it starts with. */
  predicate FailsInPreamble(stream: Stream) {
    stream.fails && stream.text != "" && stream.text[0] == '#' && '\n' !in stream.text
  }

  function ParsedStream(stream: Stream, read: CsvReader, parse: NumberParser): Result<Snapshot, ParseError> {
    if FailsInPreamble(stream) then Failure(PreambleFailed)
    else
      var (preamble, rest) := SplitPreamble(stream.text);
      ParsedRecords(PreambleMarker(preamble), read(Stream(rest, stream.fails)), parse)
  }

  function ParsedText(text: string, read: CsvReader, parse: NumberParser): Result<Snapshot, ParseError> {
    ParsedStream(Stream(text, false), read, parse)
  }

  method Parse(stream: Stream, read: CsvReader, parse: NumberParser) returns (r: Result<Snapshot, ParseError>)
    ensures r == ParsedStream(stream, read, parse)
  {
    var (preamble, rest) := SplitPreamble(stream.text);
    var modelVersion, scoreDate := "", "";
    if preamble.Some? {
      if FailsInPreamble(stream) {
        return Failure(PreambleFailed);
      }
      modelVersion, scoreDate := ParsePreamble(preamble.value);
    }
    r := ParseRecords((modelVersion, scoreDate), read(Stream(rest, stream.fails)), parse);
  }
}
