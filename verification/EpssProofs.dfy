/** What the EPSS parser promises: the last valid row wins, malformed rows are harmless,
    columns may come in any order, and printing then parsing gives the snapshot back. */
module EpssProofs {
  import opened Base
  import opened Text
  import opened Epss

  // ----- The tolerant fold -----

  /** Row i is valid, is about cve, and no later valid row is. */
  predicate LastRowFor(cols: Columns, recs: seq<ReadOutcome>, parse: NumberParser, cve: string, i: nat) {
    && i < |recs|
    && RowValue(cols, recs[i], parse).Some? && RowValue(cols, recs[i], parse).value.0 == cve
    && forall j | i < j < |recs| ::
         RowValue(cols, recs[j], parse).None? || RowValue(cols, recs[j], parse).value.0 != cve
  }

  lemma {:induction false} LastRowWins(cols: Columns, recs: seq<ReadOutcome>, parse: NumberParser, cve: string)
    ensures cve in RowFold(cols, recs, parse) <==> exists i: nat :: LastRowFor(cols, recs, parse, cve, i)
    ensures forall i: nat | LastRowFor(cols, recs, parse, cve, i) ::
              RowFold(cols, recs, parse)[cve] == RowValue(cols, recs[i], parse).value.1
  {
    if recs != [] {
      var n := |recs| - 1;
      var init := recs[..n];
      LastRowWins(cols, init, parse, cve);
      var v := RowValue(cols, recs[n], parse);
      if v.Some? && v.value.0 == cve {
        assert LastRowFor(cols, recs, parse, cve, n);
      } else {
        LastRowExtends(cols, recs, init, parse, cve);
      }
    }
  }

  lemma LastRowExtends(cols: Columns, recs: seq<ReadOutcome>, init: seq<ReadOutcome>, parse: NumberParser, cve: string)
    requires recs != [] && init == recs[..|recs| - 1]
    requires var v := RowValue(cols, recs[|recs| - 1], parse); v.None? || v.value.0 != cve
    ensures forall i: nat :: LastRowFor(cols, init, parse, cve, i) <==> LastRowFor(cols, recs, parse, cve, i)
  {
  }

  lemma {:induction false} AppendOverrides(cols: Columns, a: seq<ReadOutcome>, b: seq<ReadOutcome>, parse: NumberParser)
    ensures RowFold(cols, a + b, parse) == RowFold(cols, a, parse) + RowFold(cols, b, parse)
  {
    if b == [] {
      assert a + b == a;
    } else {
      var n := |b| - 1;
      assert (a + b)[..|a + b| - 1] == a + b[..n];
      AppendOverrides(cols, a, b[..n], parse);
    }
  }

  /** A malformed record, wherever it is inserted after the header, changes nothing: neither
      the parsed snapshot nor whether parsing succeeds. */
  lemma MalformedRowIgnored(marker: (string, string), header: seq<string>, a: seq<ReadOutcome>, bad: ReadOutcome,
                            b: seq<ReadOutcome>, parse: NumberParser)
    requires !bad.ReadError?
    requires FindColumns(header).Some? ==> RowValue(FindColumns(header).value, bad, parse).None?
    ensures ParsedRecords(marker, [Row(header)] + a + [bad] + b, parse)
         == ParsedRecords(marker, [Row(header)] + a + b, parse)
  {
    var with, without := [Row(header)] + a + [bad] + b, [Row(header)] + a + b;
    assert with[1..] == a + [bad] + b && without[1..] == a + b;
    if FindColumns(header).Some? {
      var cols := FindColumns(header).value;
      AppendOverrides(cols, a, b, parse);
      AppendOverrides(cols, a + [bad], b, parse);
      AppendOverrides(cols, a, [bad], parse);
    }
  }

  /** With a usable header and no read failure, parsing fails exactly when no row is valid. */
  lemma FailsIffNoValidRow(marker: (string, string), recs: seq<ReadOutcome>, parse: NumberParser)
    requires recs != [] && recs[0].Row? && FindColumns(recs[0].fields).Some?
    requires ReadError !in recs
    ensures ParsedRecords(marker, recs, parse).Failure?
       <==> forall i | 1 <= i < |recs| :: RowValue(FindColumns(recs[0].fields).value, recs[i], parse).None?
  {
    var cols := FindColumns(recs[0].fields).value;
    assert forall r | r in recs[1..] :: r in recs;
    FoldEmptyIff(cols, recs[1..], parse);
    assert forall i | 1 <= i < |recs| :: recs[i] == recs[1..][i - 1];
  }

  lemma {:induction false} FoldEmptyIff(cols: Columns, recs: seq<ReadOutcome>, parse: NumberParser)
    ensures RowFold(cols, recs, parse) == map[] <==> forall i | 0 <= i < |recs| :: RowValue(cols, recs[i], parse).None?
  {
    if recs != [] {
      var n := |recs| - 1;
      FoldEmptyIff(cols, recs[..n], parse);
      var v := RowValue(cols, recs[n], parse);
      if v.Some? {
        assert v.value.0 in RowFold(cols, recs, parse);
      }
    }
  }

  /** Every successful parse yields a non-empty snapshot with normalized keys. */
  lemma ParseYieldsParsed(marker: (string, string), recs: seq<ReadOutcome>, parse: NumberParser)
    requires ParsedRecords(marker, recs, parse).Success?
    ensures Parsed(ParsedRecords(marker, recs, parse).value)
    ensures Marker(ParsedRecords(marker, recs, parse).value) == marker
  {
    FoldKeysNormal(FindColumns(recs[0].fields).value, recs[1..], parse);
  }

  lemma {:induction false} FoldKeysNormal(cols: Columns, recs: seq<ReadOutcome>, parse: NumberParser)
    ensures forall cve | cve in RowFold(cols, recs, parse) :: cve != "" && NormalizeId(cve) == cve
  {
    if recs != [] {
      var n := |recs| - 1;
      FoldKeysNormal(cols, recs[..n], parse);
      if recs[n].Row? && |recs[n].fields| > MaxColumn(cols) {
        NormalizeIdempotent(recs[n].fields[cols.cve]);
      }
    }
  }

  // ----- Which failure -----

  /** No cell of the header has the name, in any letter case and between blanks. */
  predicate Unnamed(header: seq<string>, lower: string, upper: string)
    requires |lower| == |upper|
  {
    forall i | 0 <= i < |header| :: !InAnyCase(TrimSpace(header[i]), lower, upper)
  }

  /** Each failure happens exactly when its own cause is there and no earlier one is: no header
      record, a needed column that is not named, a read failure after the header, no valid row. */
  lemma FailsExactly(marker: (string, string), recs: seq<ReadOutcome>, parse: NumberParser)
    ensures var r := ParsedRecords(marker, recs, parse);
            && (r == Failure(NoHeader) <==> recs == [] || !recs[0].Row?)
            && (r == Failure(BadHeader) <==>
                  recs != [] && recs[0].Row?
                  && (Unnamed(recs[0].fields, "cve", "CVE") || Unnamed(recs[0].fields, "epss", "EPSS")
                      || Unnamed(recs[0].fields, "percentile", "PERCENTILE")))
            && (r == Failure(ReadFailed) <==>
                  recs != [] && recs[0].Row? && FindColumns(recs[0].fields).Some? && ReadError in recs[1..])
            && r != Failure(PreambleFailed)
  {
    if recs != [] && recs[0].Row? {
      HeaderLacks(recs[0].fields);
    }
  }

  lemma HeaderLacks(header: seq<string>)
    ensures FindColumns(header).None? <==>
              Unnamed(header, "cve", "CVE") || Unnamed(header, "epss", "EPSS")
              || Unnamed(header, "percentile", "PERCENTILE")
  {
    UnnamedIs(header, "cve", "CVE");
    UnnamedIs(header, "epss", "EPSS");
    UnnamedIs(header, "percentile", "PERCENTILE");
  }

  lemma UnnamedIs(header: seq<string>, lower: string, upper: string)
    requires LowerLetters(lower) && Uppercased(upper, lower)
    ensures Unnamed(header, lower, upper) <==> LastColumn(header, lower) == -1
  {
    forall i | 0 <= i < |header|
      ensures Names(header[i], lower) <==> InAnyCase(TrimSpace(header[i]), lower, upper)
    {
      LowersTo(TrimSpace(header[i]), lower, upper);
    }
  }

  // ----- One row -----

  /** What a row gives, cell by cell, blanks around the cells aside: a row wide enough for the
      three columns whose two numbers parse and whose identifier is not blank gives that
      identifier in upper case with those numbers, and any other record gives nothing. */
  lemma RowGives(cols: Columns, rec: ReadOutcome, parse: NumberParser, cve: string, sc: Score)
    ensures RowValue(cols, rec, parse) == Some((cve, sc)) <==>
              && rec.Row? && cols.cve < |rec.fields| && cols.epss < |rec.fields| && cols.percentile < |rec.fields|
              && parse(TrimSpace(rec.fields[cols.epss])) == Some(sc.score)
              && parse(TrimSpace(rec.fields[cols.percentile])) == Some(sc.percentile)
              && Uppercased(cve, TrimSpace(rec.fields[cols.cve])) && cve != ""
  {
    if rec.Row? && cols.cve < |rec.fields| {
      NormalFormIs(rec.fields[cols.cve], cve);
    }
  }

  /** A lookup normalizes what it is asked: any spelling of an identifier finds the score stored
      under its normal form, and before any load nothing is found. */
  lemma LookupNormalizes(s: Snapshot, asked: string, id: string)
    requires Uppercased(id, TrimSpace(asked))
    ensures LookupScore(Some(s), asked) == if id in s.scores then Some(s.scores[id]) else None
    ensures LookupScore(None, asked) == None
  {
    NormalFormIs(asked, id);
  }

  // ----- One line, and the preamble -----

  /** A blank line is no record; any other line is one, cut at its commas; and a carriage return
      at the end of a line is not part of it. */
  lemma LinesGive(line: string)
    requires line == "" || line[|line| - 1] != '\r'
    ensures LineRecords(line) == if line == "" then [] else [Row(Split(line, ','))]
    ensures LineRecords(line + "\r") == LineRecords(line)
  {
    assert (line + "\r")[..|line|] == line;
  }

  /** A stream that does not start with a preamble is read whole, and has an empty marker. */
  lemma NoPreamble(stream: Stream, read: CsvReader, parse: NumberParser)
    requires stream.text == "" || stream.text[0] != '#'
    ensures ParsedStream(stream, read, parse) == ParsedRecords(("", ""), read(stream), parse)
  {
  }

  lemma NoPreambleText(text: string, read: CsvReader, parse: NumberParser)
    requires QuoteFree(text) && ReadsQuoteFree(read) && (text == "" || text[0] != '#')
    ensures ParsedText(text, read, parse) == ParsedRecords(("", ""), CsvRecords(text), parse)
  {
    NoPreamble(Stream(text, false), read, parse);
  }

  /** A first line that starts with '#' gives the marker and is kept from the reader. */
  lemma WithPreamble(line: string, rest: string, fails: bool, read: CsvReader, parse: NumberParser)
    requires '\n' !in line
    ensures ParsedStream(Stream("#" + line + "\n" + rest, fails), read, parse)
         == ParsedRecords(PreambleMarker(Some("#" + line + "\n")), read(Stream(rest, fails)), parse)
  {
    PreambleFirst("#" + line, rest);
    var text := "#" + line + "\n" + rest;
    assert text[|line| + 1] == '\n';
  }

  /** A preamble that never ends leaves no header; when the stream fails inside it, that is the
      failure reported. */
  lemma OnlyPreamble(line: string, read: CsvReader, parse: NumberParser)
    requires '\n' !in line && QuoteFree(line) && ReadsQuoteFree(read)
    ensures ParsedStream(Stream("#" + line, true), read, parse) == Failure(PreambleFailed)
    ensures ParsedStream(Stream("#" + line, false), read, parse) == Failure(NoHeader)
  {
    var text := "#" + line;
    assert '\n' !in text;
    IndexOfNone(text, '\n');
    NoText();
  }

  /** A preamble field is split at its first colon, blanks around both parts dropped; a field with
      no colon says nothing. */
  lemma FieldGives(name: string, value: string)
    requires ':' !in name
    ensures PreambleField(name + ":" + value) == Some((TrimSpace(name), TrimSpace(value)))
    ensures PreambleField(name) == None
  {
    var left, a := LeftEnd(name);
    var b, right := RightEnd(value);
    FieldCore(left, a, b, right);
    assert left + (a + ":" + b) + right == name + ":" + value;
    NoColon(name);
  }

  lemma LeftEnd(s: string) returns (left: string, a: string)
    ensures Blank(left) && s == left + a && (a == "" || !IsSpace(a[0])) && TrimSpace(a) == TrimSpace(s)
  {
    left := TrimLeftSplits(s);
    a := TrimLeft(s);
  }

  lemma RightEnd(s: string) returns (b: string, right: string)
    ensures Blank(right) && s == b + right && (b == "" || !IsSpace(b[|b| - 1])) && TrimSpace(b) == TrimSpace(s)
  {
    var left, end := TrimSplits(s);
    var core := TrimSpace(s);
    if core == "" {
      BlankTrims(s);
      b, right := "", s;
    } else {
      b, right := left + core, end;
      TrimPadded(left, core, "");
      assert left + core + "" == b;
    }
  }

  lemma FieldCore(left: string, a: string, b: string, right: string)
    requires Blank(left) && Blank(right) && ':' !in a
    requires (a == "" || !IsSpace(a[0])) && (b == "" || !IsSpace(b[|b| - 1]))
    ensures PreambleField(left + (a + ":" + b) + right) == Some((TrimSpace(a), TrimSpace(b)))
  {
    var core := a + ":" + b;
    assert core[0] == if a == "" then ':' else a[0];
    assert core[|core| - 1] == if b == "" then ':' else b[|b| - 1];
    TrimPadded(left, core, right);
    CutFirst(a, ':', b);
    assert core == a + [':'] + b;
  }

  lemma NoColon(field: string)
    requires ':' !in field
    ensures PreambleField(field) == None
  {
    var left, right := TrimSplits(field);
    assert forall x | x in TrimSpace(field) :: x in field;
    IndexOfNone(TrimSpace(field), ':');
  }

  /** Field i has the name and no later field does. */
  predicate LastFieldFor(fields: seq<string>, name: string, i: nat) {
    && i < |fields| && PreambleField(fields[i]).Some? && PreambleField(fields[i]).value.0 == name
    && forall j | i < j < |fields| :: PreambleField(fields[j]).None? || PreambleField(fields[j]).value.0 != name
  }

  /** The preamble's value of a name is that of the last field with it, and empty without one. */
  lemma {:induction false} LastFieldWins(fields: seq<string>, name: string)
    ensures forall i: nat | LastFieldFor(fields, name, i) ::
              PreambleValue(fields, name) == PreambleField(fields[i]).value.1
    ensures (forall i: nat :: !LastFieldFor(fields, name, i)) ==> PreambleValue(fields, name) == ""
  {
    if fields != [] {
      var n := |fields| - 1;
      LastFieldWins(fields[..n], name);
      var last := PreambleField(fields[n]);
      if last.Some? && last.value.0 == name {
        assert LastFieldFor(fields, name, n);
      } else {
        LastFieldExtends(fields, fields[..n], name);
      }
    }
  }

  lemma LastFieldExtends(fields: seq<string>, init: seq<string>, name: string)
    requires fields != [] && init == fields[..|fields| - 1]
    requires var last := PreambleField(fields[|fields| - 1]); last.None? || last.value.0 != name
    ensures forall i: nat :: LastFieldFor(init, name, i) <==> LastFieldFor(fields, name, i)
  {
  }

  // ----- The tolerant fold, on text -----

  lemma {:induction false} LinesJoin(a: seq<string>, b: seq<string>)
    ensures LinesRecords(a + b) == LinesRecords(a) + LinesRecords(b)
  {
    if a == [] {
      assert a + b == b;
    } else {
      assert (a + b)[0] == a[0] && (a + b)[1..] == a[1..] + b;
      LinesJoin(a[1..], b);
    }
  }

  /** Lines put one after the other yield their records one after the other. */
  lemma RecordsJoin(a: string, b: string)
    requires QuoteFree(a) && QuoteFree(b)
    ensures QuoteFree(a + "\n" + b) && CsvRecords(a + "\n" + b) == CsvRecords(a) + CsvRecords(b)
  {
    SplitJoin(a, '\n', b);
    assert a + "\n" + b == a + ['\n'] + b;
    LinesJoin(Split(a, '\n'), Split(b, '\n'));
  }

  lemma {:induction false} LinesAreRows(lines: seq<string>)
    ensures forall rec | rec in LinesRecords(lines) :: rec.Row?
  {
    if lines != [] {
      LinesAreRows(lines[1..]);
    }
  }

  /** The records of a text after its preamble, the header first. */
  function BodyRecords(text: string): seq<ReadOutcome>
    requires QuoteFree(text)
  {
    CsvRecords(SplitPreamble(text).1)
  }

  lemma NoText()
    ensures CsvRecords("") == []
  {
    assert Split("", '\n') == [""] && LinesRecords([""]) == LineRecords("") + LinesRecords([""][1..]);
  }

  /** More lines after a complete preamble go to the rest, and leave the preamble alone. */
  lemma PreambleStays(top: string, more: string)
    requires SplitPreamble(top).1 != ""
    ensures SplitPreamble(top + "\n" + more) == (SplitPreamble(top).0, SplitPreamble(top).1 + "\n" + more)
  {
    var tail := "\n" + more;
    var text := top + tail;
    assert text == top + "\n" + more && text[0] == top[0];
    if top[0] == '#' {
      var i := IndexOf(top, '\n');
      assert i < |top| && top[i] == '\n';
      IndexOfPrefix(top, '\n', tail);
      CutJoin(top, tail, i + 1);
      assert top[i + 1..] + tail == top[i + 1..] + "\n" + more;
    }
  }

  lemma BodyGrows(top: string, more: string)
    requires QuoteFree(top) && QuoteFree(more) && BodyRecords(top) != []
    ensures QuoteFree(top + "\n" + more)
    ensures SplitPreamble(top + "\n" + more).0 == SplitPreamble(top).0
    ensures BodyRecords(top + "\n" + more) == BodyRecords(top) + CsvRecords(more)
  {
    NoText();
    RecordsJoin(top, more);
    PreambleStays(top, more);
    RecordsJoin(SplitPreamble(top).1, more);
  }

  /** What a text parses to, by its preamble and its records. */
  lemma TextParses(text: string, read: CsvReader, parse: NumberParser)
    requires QuoteFree(text) && ReadsQuoteFree(read)
    ensures ParsedText(text, read, parse)
         == ParsedRecords(PreambleMarker(SplitPreamble(text).0), BodyRecords(text), parse)
  {
  }

  /** The header of a text names the columns. */
  predicate HasHeader(text: string, cols: Columns)
    requires QuoteFree(text)
  {
    BodyRecords(text) != [] && BodyRecords(text)[0].Row? && FindColumns(BodyRecords(text)[0].fields) == Some(cols)
  }

  /** A malformed line inserted at any line boundary after the header changes nothing. */
  lemma MalformedLineIgnored(top: string, cols: Columns, line: string, rest: string, read: CsvReader,
                             parse: NumberParser)
    requires QuoteFree(top) && QuoteFree(line) && QuoteFree(rest) && ReadsQuoteFree(read)
    requires HasHeader(top, cols)
    requires forall rec | rec in CsvRecords(line) :: RowValue(cols, rec, parse).None?
    ensures ParsedText(top + "\n" + (line + "\n" + rest), read, parse) == ParsedText(top + "\n" + rest, read, parse)
  {
    RecordsJoin(line, rest);
    BodyGrows(top, line + "\n" + rest);
    BodyGrows(top, rest);
    TextParses(top + "\n" + (line + "\n" + rest), read, parse);
    TextParses(top + "\n" + rest, read, parse);
    LinesAreRows(Split(line, '\n'));
    var marker := PreambleMarker(SplitPreamble(top).0);
    MalformedRowsIgnored(marker, BodyRecords(top), CsvRecords(line), CsvRecords(rest), parse);
    var body := BodyRecords(top);
    assert body + (CsvRecords(line) + CsvRecords(rest)) == body + CsvRecords(line) + CsvRecords(rest);
  }

  lemma {:induction false} MalformedRowsIgnored(marker: (string, string), top: seq<ReadOutcome>, bad: seq<ReadOutcome>,
                                                rest: seq<ReadOutcome>, parse: NumberParser)
    requires top != [] && top[0].Row? && FindColumns(top[0].fields).Some?
    requires forall rec | rec in bad :: rec.Row? && RowValue(FindColumns(top[0].fields).value, rec, parse).None?
    ensures ParsedRecords(marker, top + bad + rest, parse) == ParsedRecords(marker, top + rest, parse)
  {
    if bad == [] {
      assert top + bad + rest == top + rest;
    } else {
      var header, a := top[0].fields, top[1..];
      var later := bad[1..] + rest;
      assert bad == [bad[0]] + bad[1..] && bad[0] in bad;
      assert top + bad + rest == [Row(header)] + a + [bad[0]] + later;
      assert top + bad[1..] + rest == [Row(header)] + a + later;
      MalformedRowIgnored(marker, header, a, bad[0], later, parse);
      MalformedRowsIgnored(marker, top, bad[1..], rest, parse);
    }
  }

  function ScoresOf(r: Result<Snapshot, ParseError>): map<string, Score> {
    if r.Success? then r.value.scores else map[]
  }

  /** Lines appended after the header override the scores before them, and leave the marker. */
  lemma AppendedLinesOverride(top: string, cols: Columns, more: string, read: CsvReader, parse: NumberParser)
    requires QuoteFree(top) && QuoteFree(more) && ReadsQuoteFree(read) && HasHeader(top, cols)
    ensures var marker := PreambleMarker(SplitPreamble(top).0);
            var scores := ScoresOf(ParsedText(top, read, parse)) + RowFold(cols, CsvRecords(more), parse);
            ParsedText(top + "\n" + more, read, parse)
              == if scores == map[] then Failure(NoValidRows) else Success(Snapshot(scores, marker.0, marker.1))
  {
    BodyGrows(top, more);
    TextParses(top, read, parse);
    TextParses(top + "\n" + more, read, parse);
    LinesAreRows(Split(SplitPreamble(top).1, '\n'));
    LinesAreRows(Split(more, '\n'));
    AppendedRowsOverride(PreambleMarker(SplitPreamble(top).0), BodyRecords(top), CsvRecords(more), cols, parse);
  }

  lemma AppendedRowsOverride(marker: (string, string), recs: seq<ReadOutcome>, more: seq<ReadOutcome>, cols: Columns,
                             parse: NumberParser)
    requires recs != [] && (forall rec | rec in recs :: rec.Row?) && forall rec | rec in more :: rec.Row?
    requires FindColumns(recs[0].fields) == Some(cols)
    ensures var scores := ScoresOf(ParsedRecords(marker, recs, parse)) + RowFold(cols, more, parse);
            ParsedRecords(marker, recs + more, parse)
              == if scores == map[] then Failure(NoValidRows) else Success(Snapshot(scores, marker.0, marker.1))
  {
    var whole, rows := recs + more, recs[1..];
    assert whole[0] == recs[0] && whole[1..] == rows + more;
    RowsParse(marker, recs, cols, parse);
    assert ScoresOf(ParsedRecords(marker, recs, parse)) == RowFold(cols, rows, parse);
    RowsParse(marker, whole, cols, parse);
    AppendOverrides(cols, rows, more, parse);
  }

  lemma RowsParse(marker: (string, string), recs: seq<ReadOutcome>, cols: Columns, parse: NumberParser)
    requires recs != [] && (forall rec | rec in recs :: rec.Row?) && FindColumns(recs[0].fields) == Some(cols)
    ensures var scores := RowFold(cols, recs[1..], parse);
            ParsedRecords(marker, recs, parse)
              == if scores == map[] then Failure(NoValidRows) else Success(Snapshot(scores, marker.0, marker.1))
  {
    assert forall rec | rec in recs[1..] :: rec in recs;
  }

  // ----- Column order -----

  /** p and q are inverse permutations of the same column positions. */
  predicate Inverse(p: seq<nat>, q: seq<nat>) {
    && |p| == |q|
    && (forall i | 0 <= i < |p| :: p[i] < |q| && q[p[i]] == i)
    && (forall i | 0 <= i < |q| :: q[i] < |p| && p[q[i]] == i)
  }

  function Permute(row: seq<string>, p: seq<nat>): (r: seq<string>)
    requires |row| == |p| && forall i | 0 <= i < |p| :: p[i] < |row|
    ensures |r| == |p| && forall i | 0 <= i < |p| :: r[i] == row[p[i]]
  {
    seq(|p|, i requires 0 <= i < |p| => row[p[i]])
  }

  /** Records whose rows are all as wide as the header. */
  predicate Rectangular(recs: seq<ReadOutcome>, width: nat) {
    forall i | 0 <= i < |recs| && recs[i].Row? :: |recs[i].fields| == width
  }

  function PermuteRecords(recs: seq<ReadOutcome>, p: seq<nat>): (r: seq<ReadOutcome>)
    requires Rectangular(recs, |p|) && forall i | 0 <= i < |p| :: p[i] < |p|
    ensures |r| == |recs|
    ensures forall i | 0 <= i < |recs| :: r[i] == if recs[i].Row? then Row(Permute(recs[i].fields, p)) else recs[i]
  {
    seq(|recs|, i requires 0 <= i < |recs| => if recs[i].Row? then Row(Permute(recs[i].fields, p)) else recs[i])
  }

  predicate NamedOnce(header: seq<string>, name: string) {
    forall i, j | 0 <= i < |header| && 0 <= j < |header| && Names(header[i], name) && Names(header[j], name) :: i == j
  }

  lemma ColumnMoves(header: seq<string>, p: seq<nat>, q: seq<nat>, name: string)
    requires Inverse(p, q) && |header| == |p| && NamedOnce(header, name)
    ensures var c := LastColumn(header, name);
            LastColumn(Permute(header, p), name) == if c < 0 then -1 else q[c]
  {
    var c, d := LastColumn(header, name), LastColumn(Permute(header, p), name);
    if c >= 0 {
      assert Permute(header, p)[q[c]] == header[c];
    }
    if d >= 0 {
      assert Permute(header, p)[d] == header[p[d]];
    }
  }

  lemma RowMoves(cols: Columns, rec: ReadOutcome, p: seq<nat>, q: seq<nat>, parse: NumberParser)
    requires Inverse(p, q) && cols.cve < |p| && cols.epss < |p| && cols.percentile < |p|
    requires rec.Row? && |rec.fields| == |p|
    ensures RowValue(Columns(q[cols.cve], q[cols.epss], q[cols.percentile]), Row(Permute(rec.fields, p)), parse)
         == RowValue(cols, rec, parse)
  {
    assert Permute(rec.fields, p)[q[cols.epss]] == rec.fields[cols.epss];
    assert Permute(rec.fields, p)[q[cols.percentile]] == rec.fields[cols.percentile];
    assert Permute(rec.fields, p)[q[cols.cve]] == rec.fields[cols.cve];
  }

  lemma {:induction false} FoldMoves(cols: Columns, recs: seq<ReadOutcome>, p: seq<nat>, q: seq<nat>,
                                     parse: NumberParser)
    requires Inverse(p, q) && cols.cve < |p| && cols.epss < |p| && cols.percentile < |p|
    requires Rectangular(recs, |p|)
    ensures RowFold(Columns(q[cols.cve], q[cols.epss], q[cols.percentile]), PermuteRecords(recs, p), parse)
         == RowFold(cols, recs, parse)
  {
    if recs != [] {
      var n := |recs| - 1;
      assert PermuteRecords(recs, p)[..n] == PermuteRecords(recs[..n], p);
      FoldMoves(cols, recs[..n], p, q, parse);
      if recs[n].Row? {
        RowMoves(cols, recs[n], p, q, parse);
      }
    }
  }

  lemma ErrorsStay(recs: seq<ReadOutcome>, p: seq<nat>)
    requires Rectangular(recs, |p|) && forall i | 0 <= i < |p| :: p[i] < |p|
    ensures ReadError in PermuteRecords(recs, p) <==> ReadError in recs
  {
    var moved := PermuteRecords(recs, p);
    forall i | 0 <= i < |recs|
      ensures moved[i] == ReadError <==> recs[i] == ReadError
    {
    }
  }

  predicate NamesOnce(header: seq<string>) {
    NamedOnce(header, "cve") && NamedOnce(header, "epss") && NamedOnce(header, "percentile")
  }

  lemma ColumnsMove(header: seq<string>, p: seq<nat>, q: seq<nat>)
    requires Inverse(p, q) && |header| == |p| && NamesOnce(header)
    ensures FindColumns(Permute(header, p))
         == match FindColumns(header)
            case None => None
            case Some(cols) => Some(Columns(q[cols.cve], q[cols.epss], q[cols.percentile]))
  {
    ColumnMoves(header, p, q, "cve");
    ColumnMoves(header, p, q, "epss");
    ColumnMoves(header, p, q, "percentile");
  }

  /** Permuting the columns of the header and of every row leaves the result unchanged, when
      rows have the header's width and each needed column is named once. */
  lemma ColumnOrderIrrelevant(marker: (string, string), recs: seq<ReadOutcome>, p: seq<nat>, q: seq<nat>,
                              parse: NumberParser)
    requires Inverse(p, q) && Rectangular(recs, |p|)
    requires recs != [] && recs[0].Row? && NamesOnce(recs[0].fields)
    ensures ParsedRecords(marker, PermuteRecords(recs, p), parse) == ParsedRecords(marker, recs, parse)
  {
    var header := recs[0].fields;
    ColumnsMove(header, p, q);
    ErrorsStay(recs[1..], p);
    if FindColumns(header).Some? {
      FoldMoves(FindColumns(header).value, recs[1..], p, q, parse);
    }
    assert PermuteRecords(recs, p)[0] == Row(Permute(header, p));
    assert PermuteRecords(recs, p)[1..] == PermuteRecords(recs[1..], p);
  }

  // ----- Printing and parsing back -----

  type NumberPrinter = Float -> string

  /** Text that can stand in a preamble field or a CSV cell as it is. */
  predicate Plain(s: string) {
    Trimmed(s) && ',' !in s && '\n' !in s && QuoteFree(s)
  }

  /** The number prints as plain text that parses back to it. */
  predicate Inverts(parse: NumberParser, format: NumberPrinter, x: Float) {
    Plain(format(x)) && format(x) != "" && parse(format(x)) == Some(x)
  }

  predicate InvertsScore(parse: NumberParser, format: NumberPrinter, sc: Score) {
    Inverts(parse, format, sc.score) && Inverts(parse, format, sc.percentile)
  }

  type Entry = (string, Score)

  function PrintRow(e: Entry, format: NumberPrinter): string {
    e.0 + "," + (format(e.1.score) + "," + format(e.1.percentile))
  }

  function PrintRows(entries: seq<Entry>, format: NumberPrinter): string {
    if entries == [] then "" else PrintRow(entries[0], format) + "\n" + PrintRows(entries[1..], format)
  }

  function PrintPreamble(s: Snapshot, dateFirst: bool): string {
    var version, date := Field(VERSION, s.modelVersion), Field(DATE, s.scoreDate);
    "#" + if dateFirst then date + "," + version else version + "," + date
  }

  const VERSION := "model_version"
  const DATE := "score_date"
  const HEADER := "cve" + "," + ("epss" + "," + "percentile")
  const NAMES := ["cve", "epss", "percentile"]

  function Print(s: Snapshot, entries: seq<Entry>, dateFirst: bool, format: NumberPrinter): string {
    PrintPreamble(s, dateFirst) + "\n" + (HEADER + "\n" + PrintRows(entries, format))
  }

  function EntryKeys(entries: seq<Entry>): set<string> {
    set e | e in entries :: e.0
  }

  /** The entries are the bindings of the map, in some order. */
  predicate Lists(entries: seq<Entry>, scores: map<string, Score>) {
    EntryKeys(entries) == scores.Keys && forall e | e in entries :: scores[e.0] == e.1
  }

  /** Every finite map has such a listing, so the round trip below is about every snapshot. */
  lemma {:induction false} ListingExists(scores: map<string, Score>) returns (entries: seq<Entry>)
    ensures Lists(entries, scores)
    decreases |scores|
  {
    if scores == map[] {
      entries := [];
    } else {
      var cve :| cve in scores;
      var rest := ListingExists(scores - {cve});
      entries := rest + [(cve, scores[cve])];
      assert EntryKeys(entries) == EntryKeys(rest) + {cve};
    }
  }

  lemma CsvFirstLine(line: string, rest: string)
    requires '\n' !in line && QuoteFree(line) && QuoteFree(rest)
    ensures QuoteFree(line + "\n" + rest)
    ensures CsvRecords(line + "\n" + rest) == LineRecords(line) + CsvRecords(rest)
  {
    SplitFirst(line, '\n', rest);
    var text := line + ['\n'] + rest;
    assert text == line + "\n" + rest;
    var lines := Split(rest, '\n');
    assert ([line] + lines)[1..] == lines;
  }

  lemma SplitThree(a: string, b: string, c: string)
    requires ',' !in a && ',' !in b && ',' !in c
    ensures Split(a + "," + (b + "," + c), ',') == [a, b, c]
  {
    var tail := b + [','] + c;
    SplitFirst(a, ',', tail);
    SplitFirst(b, ',', c);
    SplitNone(c, ',');
    assert a + "," + (b + "," + c) == a + [','] + tail;
  }

  lemma OneRecord(line: string)
    requires line != "" && line[|line| - 1] != '\r'
    ensures LineRecords(line) == [Row(Split(line, ','))]
  {
  }

  lemma CellsWithout(a: string, b: string, c: string, x: char)
    requires x !in a && x !in b && x !in c && x != ','
    ensures x !in a + "," + (b + "," + c)
  {
  }

  /** Plain cells joined by commas make one record of those cells. */
  lemma CellsRecord(a: string, b: string, c: string)
    requires Plain(a) && Plain(b) && Plain(c) && c != ""
    ensures var row := a + "," + (b + "," + c);
            '\n' !in row && QuoteFree(row) && LineRecords(row) == [Row([a, b, c])]
  {
    var row := a + "," + (b + "," + c);
    assert row != "" && row[|row| - 1] != '\r' by {
      assert row[|row| - 1] == c[|c| - 1] && !IsSpace(c[|c| - 1]);
    }
    OneRecord(row);
    SplitThree(a, b, c);
    CellsWithout(a, b, c, '\n');
    CellsWithout(a, b, c, '"');
  }

  /** An entry that prints as a row and reads back. */
  predicate Printable(e: Entry, parse: NumberParser, format: NumberPrinter) {
    InvertsScore(parse, format, e.1) && Plain(e.0) && e.0 != "" && NormalizeId(e.0) == e.0
  }

  /** A printed row is one CSV record that parses to its entry. */
  lemma RowRoundTrip(e: Entry, parse: NumberParser, format: NumberPrinter)
    requires Printable(e, parse, format)
    ensures var row := PrintRow(e, format);
            && '\n' !in row && QuoteFree(row) && |LineRecords(row)| == 1
            && RowValue(Columns(0, 1, 2), LineRecords(row)[0], parse) == Some(e)
  {
    var a, b := format(e.1.score), format(e.1.percentile);
    CellsRecord(e.0, a, b);
    TrimPlain(a);
    TrimPlain(b);
  }

  lemma TrimPlain(s: string)
    requires Trimmed(s)
    ensures TrimSpace(s) == s
  {
  }

  /** The records parse, row by row, to the entries. */
  predicate ParseTo(recs: seq<ReadOutcome>, entries: seq<Entry>, parse: NumberParser) {
    && |recs| == |entries|
    && forall i | 0 <= i < |entries| :: RowValue(Columns(0, 1, 2), recs[i], parse) == Some(entries[i])
  }

  lemma ParseToNext(rec: ReadOutcome, recs: seq<ReadOutcome>, entries: seq<Entry>, parse: NumberParser)
    requires entries != [] && RowValue(Columns(0, 1, 2), rec, parse) == Some(entries[0])
    requires ParseTo(recs, entries[1..], parse)
    ensures ParseTo([rec] + recs, entries, parse)
  {
    var all := [rec] + recs;
    forall i | 0 <= i < |entries|
      ensures RowValue(Columns(0, 1, 2), all[i], parse) == Some(entries[i])
    {
      if i > 0 {
        assert all[i] == recs[i - 1] && entries[i] == entries[1..][i - 1];
      }
    }
  }

  lemma {:induction false} RowsRoundTrip(entries: seq<Entry>, parse: NumberParser, format: NumberPrinter)
    requires forall i | 0 <= i < |entries| :: Printable(entries[i], parse, format)
    ensures QuoteFree(PrintRows(entries, format))
    ensures ParseTo(CsvRecords(PrintRows(entries, format)), entries, parse)
  {
    if entries == [] {
      NoText();
    } else {
      var row, rows := PrintRow(entries[0], format), PrintRows(entries[1..], format);
      RowRoundTrip(entries[0], parse, format);
      RowsRoundTrip(entries[1..], parse, format);
      CsvFirstLine(row, rows);
      ParseToNext(LineRecords(row)[0], CsvRecords(rows), entries, parse);
      assert CsvRecords(row + "\n" + rows) == [LineRecords(row)[0]] + CsvRecords(rows);
    }
  }

  /** Rows that agree with a map fold to its restriction to their keys. */
  lemma {:induction false} FoldOfListing(entries: seq<Entry>, scores: map<string, Score>, recs: seq<ReadOutcome>,
                                         parse: NumberParser)
    requires ParseTo(recs, entries, parse)
    requires forall e | e in entries :: e.0 in scores && scores[e.0] == e.1
    ensures var fold := RowFold(Columns(0, 1, 2), recs, parse);
            fold.Keys == EntryKeys(entries) && forall cve | cve in fold :: cve in scores && fold[cve] == scores[cve]
  {
    if entries != [] {
      var n := |entries| - 1;
      assert entries == entries[..n] + [entries[n]];
      FoldOfListing(entries[..n], scores, recs[..n], parse);
      assert EntryKeys(entries) == EntryKeys(entries[..n]) + {entries[n].0};
    }
  }

  lemma FoldIsMap(entries: seq<Entry>, scores: map<string, Score>, recs: seq<ReadOutcome>, parse: NumberParser)
    requires Lists(entries, scores) && ParseTo(recs, entries, parse)
    ensures RowFold(Columns(0, 1, 2), recs, parse) == scores
  {
    forall e | e in entries
      ensures e.0 in scores
    {
      assert e.0 in EntryKeys(entries);
    }
    FoldOfListing(entries, scores, recs, parse);
  }

  lemma FieldRoundTrip(name: string, value: string)
    requires Trimmed(name) && ':' !in name && name != "" && Trimmed(value)
    ensures PreambleField(name + ":" + value) == Some((name, value))
  {
    var field := name + [':'] + value;
    assert Trimmed(field);
    CutFirst(name, ':', value);
    assert field == name + ":" + value;
  }

  /** A name usable before the first colon of a preamble field. */
  predicate FieldName(name: string) {
    name != "" && Plain(name) && ':' !in name
  }

  function Field(name: string, value: string): string {
    name + ":" + value
  }

  lemma FieldPlain(name: string, value: string)
    requires FieldName(name) && Plain(value)
    ensures Field(name, value) != "" && Plain(Field(name, value))
  {
    var f := Field(name, value);
    assert f[0] == name[0] && f[|f| - 1] == if value == "" then ':' else value[|value| - 1];
  }

  /** A trimmed body after a '#' survives the preamble's trimming, newline and all. */
  lemma PreambleBody(body: string)
    requires body != "" && Trimmed(body)
    ensures PreambleFields("#" + body + "\n") == Split(body, ',')
  {
    var line := "#" + body;
    assert line[|line| - 1] == body[|body| - 1] && line[0] == '#';
    TrimPadded("", line, "\n");
    assert "" + line + "\n" == line + "\n";
    assert line[1..] == body;
    TrimPlain(body);
  }

  lemma PreambleSplits(f1: string, f2: string)
    requires Plain(f1) && Plain(f2) && f1 != "" && f2 != ""
    ensures PreambleFields("#" + (f1 + "," + f2) + "\n") == [f1, f2]
  {
    var body := f1 + "," + f2;
    assert body[|body| - 1] == f2[|f2| - 1] && body[0] == f1[0];
    PreambleBody(body);
    SplitFirst(f1, ',', f2);
    SplitNone(f2, ',');
    assert body == f1 + [','] + f2;
  }

  /** A line "#name:value,name:value" yields both values, whichever name comes first and
      whatever colons the values hold. */
  lemma PreambleRoundTrip(n1: string, v1: string, n2: string, v2: string)
    requires FieldName(n1) && Plain(v1) && FieldName(n2) && Plain(v2) && n1 != n2
    ensures var fields := PreambleFields("#" + (Field(n1, v1) + "," + Field(n2, v2)) + "\n");
            PreambleValue(fields, n1) == v1 && PreambleValue(fields, n2) == v2
  {
    var f1, f2 := Field(n1, v1), Field(n2, v2);
    FieldPlain(n1, v1);
    FieldPlain(n2, v2);
    PreambleSplits(f1, f2);
    FieldRoundTrip(n1, v1);
    FieldRoundTrip(n2, v2);
    assert [f1, f2][..1] == [f1];
    assert PreambleValue([f1], n1) == v1;
  }

  lemma MarkerRoundTrip(s: Snapshot, dateFirst: bool)
    requires Plain(s.modelVersion) && Plain(s.scoreDate)
    ensures var preamble := PrintPreamble(s, dateFirst);
            && '\n' !in preamble && QuoteFree(preamble) && preamble[0] == '#'
            && PreambleMarker(Some(preamble + "\n")) == Marker(s)
  {
    FieldPlain(VERSION, s.modelVersion);
    FieldPlain(DATE, s.scoreDate);
    if dateFirst {
      PreambleRoundTrip(DATE, s.scoreDate, VERSION, s.modelVersion);
    } else {
      PreambleRoundTrip(VERSION, s.modelVersion, DATE, s.scoreDate);
    }
  }

  lemma HeaderRecord()
    ensures '\n' !in HEADER && QuoteFree(HEADER)
    ensures LineRecords(HEADER) == [Row(NAMES)]
  {
    CellsRecord("cve", "epss", "percentile");
  }

  lemma ColumnIs(header: seq<string>, name: string, i: nat)
    requires i < |header| && Names(header[i], name)
    requires forall j | 0 <= j < |header| && j != i :: !Names(header[j], name)
    ensures LastColumn(header, name) == i
  {
  }

  lemma HeaderColumns()
    ensures FindColumns(NAMES) == Some(Columns(0, 1, 2))
  {
    ColumnName("cve");
    ColumnName("epss");
    ColumnName("percentile");
    ColumnIs(NAMES, "cve", 0);
    ColumnIs(NAMES, "epss", 1);
    ColumnIs(NAMES, "percentile", 2);
  }

  lemma ColumnName(cell: string)
    requires cell in NAMES
    ensures forall name :: Names(cell, name) <==> cell == name
  {
    TrimPlain(cell);
    assert ToLower(cell) == cell;
  }

  /** Printing a snapshot and parsing the text gives the snapshot back: the same scores and
      the same marker, in either preamble order, for any listing of the scores. */
  lemma PrintParse(s: Snapshot, entries: seq<Entry>, dateFirst: bool, read: CsvReader, parse: NumberParser,
                   format: NumberPrinter)
    requires ReadsQuoteFree(read)
    requires s.scores != map[] && Lists(entries, s.scores)
    requires forall e | e in entries :: Printable(e, parse, format)
    requires Plain(s.modelVersion) && Plain(s.scoreDate)
    ensures QuoteFree(Print(s, entries, dateFirst, format))
    ensures ParsedText(Print(s, entries, dateFirst, format), read, parse) == Success(s)
  {
    var preamble := PrintPreamble(s, dateFirst);
    var rows := PrintRows(entries, format);
    var rest := HEADER + "\n" + rows;
    RowsRoundTrip(entries, parse, format);
    HeaderRecord();
    HeaderColumns();
    CsvFirstLine(HEADER, rows);
    MarkerRoundTrip(s, dateFirst);
    PreambleFirst(preamble, rest);
    ParsePrintedRecords(Marker(s), CsvRecords(rows), entries, s.scores, parse);
  }

  /** The header and rows alone. */
  function PrintBare(entries: seq<Entry>, format: NumberPrinter): string {
    HEADER + "\n" + PrintRows(entries, format)
  }

  /** Printed without a preamble, the scores come back with an empty marker. */
  lemma PrintParseBare(scores: map<string, Score>, entries: seq<Entry>, read: CsvReader, parse: NumberParser,
                       format: NumberPrinter)
    requires ReadsQuoteFree(read)
    requires scores != map[] && Lists(entries, scores)
    requires forall e | e in entries :: Printable(e, parse, format)
    ensures QuoteFree(PrintBare(entries, format))
    ensures ParsedText(PrintBare(entries, format), read, parse) == Success(Snapshot(scores, "", ""))
  {
    var rows := PrintRows(entries, format);
    RowsRoundTrip(entries, parse, format);
    HeaderRecord();
    HeaderColumns();
    CsvFirstLine(HEADER, rows);
    NoPreambleText(PrintBare(entries, format), read, parse);
    ParsePrintedRecords(("", ""), CsvRecords(rows), entries, scores, parse);
  }

  lemma PreambleFirst(preamble: string, rest: string)
    requires preamble != "" && preamble[0] == '#' && '\n' !in preamble
    ensures SplitPreamble(preamble + "\n" + rest) == (Some(preamble + "\n"), rest)
  {
    IndexOfFirst(preamble, '\n', rest);
    var text := preamble + ['\n'] + rest;
    assert text == preamble + "\n" + rest;
    assert text[..|preamble| + 1] == preamble + "\n" && text[|preamble| + 1..] == rest;
  }

  lemma ParsePrintedRecords(marker: (string, string), recs: seq<ReadOutcome>, entries: seq<Entry>,
                            scores: map<string, Score>, parse: NumberParser)
    requires Lists(entries, scores) && scores != map[] && ParseTo(recs, entries, parse)
    requires FindColumns(NAMES) == Some(Columns(0, 1, 2))
    ensures ParsedRecords(marker, [Row(NAMES)] + recs, parse) == Success(Snapshot(scores, marker.0, marker.1))
  {
    FoldIsMap(entries, scores, recs, parse);
    NoReadError(recs, entries, parse);
    assert ([Row(NAMES)] + recs)[1..] == recs;
  }

  lemma NoReadError(recs: seq<ReadOutcome>, entries: seq<Entry>, parse: NumberParser)
    requires ParseTo(recs, entries, parse)
    ensures ReadError !in recs
  {
    forall i | 0 <= i < |recs|
      ensures recs[i].Row?
    {
      assert RowValue(Columns(0, 1, 2), recs[i], parse).Some?;
    }
  }
}
