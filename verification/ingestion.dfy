/**
 * `_carregar_alarmes_excel` in its two shapes. Both read the eight logical
 * cells of a row in the same field order (identifier, name, text, text1,
 * text2, config, subconfig1, subconfig2): the positional sheet has them in
 * columns 0 to 7, the titled sheet under the titles of `ColumnTitles`.
 * Any failure yields no candidates at all.
 */
module Ingestion {
  import opened Wrappers
  import opened Alarms
  import opened Integers
  import opened ValueTransform

  const FieldCount: nat := 8

  /** `mapa_de_colunas`, in its declaration order. */
  const ColumnTitles: seq<string> := [
    "ID do Alarme", "Nome do Alarme", "Texto Principal", "Habilitado",
    "Ação Recomendada", "Nível de Configuração", "Sub-Config 1", "Sub-Config 2"
  ]

  datatype IngestError =
    | Unreadable                          // the sheet could not be opened or read
    | MissingColumns(titles: seq<string>) // configured titles absent from the header
    | TooFewColumns(row: nat)             // a positional row lacks one of columns 0..7
    | MalformedIdentifier(row: nat)       // `int()` rejected the identifier cell

  /** A row holds all eight logical cells and its identifier cell is an integer. */
  predicate RowOk(row: seq<string>) {
    |row| >= FieldCount && ParseInt(row[0]).Some?
  }

  /**
   * `a` is the record a row's cells describe: the parsed identifier, `text1`
   * through the yes/no transform, every other field copied verbatim.
   */
  ghost predicate Transcribes(a: Alarm, row: seq<string>) {
    && DescribesFields(a, row)
    && ParseInt(row[0]) == Some(a.alarmId)
  }

  /** Every field of `a` but the identifier is what the row's cells describe. */
  ghost predicate DescribesFields(a: Alarm, row: seq<string>) {
    && |row| >= FieldCount
    && a.name == row[1]
    && a.text == TextGroup(row[2], Transform(row[3]), row[4])
    && a.config == ConfigGroup(row[5], row[6], row[7])
  }

  function RowError(row: seq<string>, index: nat): IngestError {
    if |row| < FieldCount then TooFewColumns(index) else MalformedIdentifier(index)
  }

  /** The `alarm_data` dictionary built from one usable row. */
  function RowRecord(row: seq<string>): (a: Alarm)
    requires RowOk(row)
    ensures Transcribes(a, row)
  {
    Alarm(
      ParseInt(row[0]).value,
      row[1],
      TextGroup(row[2], Transform(row[3]), row[4]),
      ConfigGroup(row[5], row[6], row[7]))
  }

  /** Every row is usable. */
  ghost predicate AllRowsOk(rows: seq<seq<string>>) {
    forall i | 0 <= i < |rows| :: RowOk(rows[i])
  }

  /** `out` holds, position by position, the records the rows describe. */
  ghost predicate TranscribesAll(out: seq<Alarm>, rows: seq<seq<string>>) {
    |out| == |rows| && forall i | 0 <= i < |rows| :: Transcribes(out[i], rows[i])
  }

  /**
   * `out` holds, position by position, the records built from the rows.
   * This is how the loop produces its result; `TranscribesAll` is what that
   * result means, and `BuiltFromTranscribes` connects the two.
   */
  ghost predicate BuiltFrom(out: seq<Alarm>, rows: seq<seq<string>>) {
    |out| == |rows| && forall i | 0 <= i < |rows| :: RowOk(rows[i]) && out[i] == RowRecord(rows[i])
  }

  lemma BuiltFromTranscribes(out: seq<Alarm>, rows: seq<seq<string>>)
    requires BuiltFrom(out, rows)
    ensures TranscribesAll(out, rows)
  {
  }

  /**
   * The loop over the sheet's rows: every row becomes a record, in row
   * order, or one bad row aborts the whole batch.
   */
  function IngestRows(rows: seq<seq<string>>): (r: Option<seq<Alarm>>)
    ensures r.Some? <==> AllRowsOk(rows)
    ensures r.Some? ==> BuiltFrom(r.value, rows)
    decreases |rows|
  {
    if rows == [] then Some([])
    else if !RowOk(rows[0]) then None
    else
      var rest := IngestRows(rows[1..]);
      RowsCons(rows);
      if rest.None? then None
      else
        var out := [RowRecord(rows[0])] + rest.value;
        assert BuiltFrom(out, rows) by {
          forall i | 0 <= i < |rows| ensures RowOk(rows[i]) && out[i] == RowRecord(rows[i]) {
            if i > 0 {
              assert out[i] == rest.value[i - 1] && rows[i] == rows[1..][i - 1];
            }
          }
        }
        Some(out)
  }

  /** The row at which the loop raises: the first unusable one. */
  function FirstBadRow(rows: seq<seq<string>>): (i: nat)
    requires !AllRowsOk(rows)
    ensures i < |rows| && !RowOk(rows[i])
    ensures AllRowsOk(rows[..i])
    decreases |rows|
  {
    if !RowOk(rows[0]) then 0
    else
      BadTail(rows);
      var j := FirstBadRow(rows[1..]);
      FirstBadStep(rows, j);
      j + 1
  }

  lemma BadTail(rows: seq<seq<string>>)
    requires rows != [] && RowOk(rows[0]) && !AllRowsOk(rows)
    ensures !AllRowsOk(rows[1..])
  {
    var i :| 0 <= i < |rows| && !RowOk(rows[i]);
    assert rows[i] == rows[1..][i - 1];
  }

  lemma FirstBadStep(rows: seq<seq<string>>, j: nat)
    requires rows != [] && RowOk(rows[0])
    requires j < |rows| - 1 && !RowOk(rows[1..][j]) && AllRowsOk(rows[1..][..j])
    ensures !RowOk(rows[j + 1]) && AllRowsOk(rows[..j + 1])
  {
    assert rows[j + 1] == rows[1..][j];
    var prefix := rows[..j + 1];
    forall i | 0 <= i < |prefix| ensures RowOk(prefix[i]) {
      if i > 0 { assert prefix[i] == rows[1..][..j][i - 1]; }
    }
  }

  /** Ingests rows, reporting the first unusable one as the error. */
  function IngestOrReport(rows: seq<seq<string>>): (r: Result<seq<Alarm>, IngestError>)
    ensures r.Success? <==> AllRowsOk(rows)
    ensures r.Success? ==> TranscribesAll(r.value, rows)
    ensures r.Failure? ==> r.error == RowError(rows[FirstBadRow(rows)], FirstBadRow(rows))
  {
    match IngestRows(rows)
    case Some(out) =>
      BuiltFromTranscribes(out, rows);
      Success(out)
    case None => Failure(RowError(rows[FirstBadRow(rows)], FirstBadRow(rows)))
  }

  lemma RowsCons(rows: seq<seq<string>>)
    requires rows != []
    ensures AllRowsOk(rows) <==> RowOk(rows[0]) && AllRowsOk(rows[1..])
  {
    assert forall i | 1 <= i < |rows| :: rows[i] == rows[1..][i - 1];
  }

  /** How a `text1` value is written into a cell. */
  function ShowText1(v: Text1): string {
    match v
    case Flag(true) => Yes
    case Flag(false) => No
    case Raw(s) => s
  }

  /** The positional row that shows a record, in columns 0 to 7. */
  function RowOf(a: Alarm): seq<string> {
    [ Decimal(a.alarmId), a.name, a.text.text, ShowText1(a.text.text1), a.text.text2,
      a.config.config, a.config.subconfig1, a.config.subconfig2 ]
  }

  /**
   * A `text1` value survives being written and read back: a boolean, or a
   * text the transform does not mistake for a yes/no answer.
   */
  ghost predicate Readable(v: Text1) {
    v.Flag? || (!SpelledAs(v.s, Yes) && !SpelledAs(v.s, No))
  }

  /** Reading back the row that shows a record yields that record. */
  lemma RowRecordOfRowOf(a: Alarm)
    requires DecimalFits(a.alarmId) && Readable(a.text.text1)
    ensures RowOk(RowOf(a)) && RowRecord(RowOf(a)) == a
  {
    var row := RowOf(a);
    ParsePaddedDecimal([], a.alarmId, []);
    assert [] + Decimal(a.alarmId) + [] == Decimal(a.alarmId);
    ShowText1ReadsBack(a.text.text1);
  }

  lemma ShowText1ReadsBack(v: Text1)
    requires Readable(v)
    ensures Transform(ShowText1(v)) == v
  {
    if v.Flag? {
      TransformSamplesYes();
      TransformSamplesNo();
    } else {
      TransformRecognisesSpellings(v.s);
    }
  }

  /**
   * Round trip of the positional ingestion: rows that show records, one per
   * row, are read back as exactly those records, in order, provided each
   * identifier's digits fit `int()`'s limit.
   */
  lemma {:induction false} PositionalRoundTrip(records: seq<Alarm>)
    requires forall i | 0 <= i < |records| :: DecimalFits(records[i].alarmId) && Readable(records[i].text.text1)
    ensures IngestPositional(Some(seq(|records|, i requires 0 <= i < |records| => RowOf(records[i]))))
      == Success(records)
  {
    var rows := seq(|records|, i requires 0 <= i < |records| => RowOf(records[i]));
    RowsRoundTrip(records, rows);
  }

  lemma {:induction false} RowsRoundTrip(records: seq<Alarm>, rows: seq<seq<string>>)
    requires |rows| == |records|
    requires forall i | 0 <= i < |records| ::
      DecimalFits(records[i].alarmId) && Readable(records[i].text.text1) && rows[i] == RowOf(records[i])
    ensures IngestRows(rows) == Some(records)
    decreases |records|
  {
    if records != [] {
      RowRecordOfRowOf(records[0]);
      RowsRoundTrip(records[1..], rows[1..]);
      assert records == [records[0]] + records[1..];
    }
  }

  /** The source's `return []` on every error path. */
  function CandidatesOf(r: Result<seq<Alarm>, IngestError>): seq<Alarm> {
    match r
    case Success(cs) => cs
    case Failure(_) => []
  }

  /**
   * The positional variant (`header=None`): `None` when the sheet cannot be
   * read. Column 0 is the identifier, column 3 goes through the transform,
   * the other columns up to 7 are copied as text; further columns are ignored.
   */
  function IngestPositional(sheet: Option<seq<seq<string>>>): (r: Result<seq<Alarm>, IngestError>)
    ensures sheet.None? ==> r == Failure(Unreadable)
    ensures r.Success? <==> sheet.Some? && AllRowsOk(sheet.value)
    ensures r.Success? ==> TranscribesAll(r.value, sheet.value)
  {
    match sheet
    case None => Failure(Unreadable)
    case Some(rows) => IngestOrReport(rows)
  }

  /**
   * All or nothing: the positional variant yields a candidate for every row,
   * or none at all as soon as one row is unusable.
   */
  lemma PositionalAllOrNothing(rows: seq<seq<string>>, bad: nat)
    requires bad < |rows| && !RowOk(rows[bad])
    ensures CandidatesOf(IngestPositional(Some(rows))) == []
  {
  }

  /** A spreadsheet with a header row and rows keyed by that header. */
  datatype TitledSheet = TitledSheet(header: seq<string>, rows: seq<map<string, string>>)

  /** `row[title]` after `fillna('')`: an absent cell reads as empty text. */
  function Cell(row: map<string, string>, title: string): string {
    if title in row then row[title] else ""
  }

  /** The eight logical cells of a titled row, in field order. */
  function TitledCells(titles: seq<string>, row: map<string, string>): (cells: seq<string>)
    requires |titles| == FieldCount
    ensures |cells| == FieldCount
    ensures forall k | 0 <= k < FieldCount :: cells[k] == Cell(row, titles[k])
  {
    seq(FieldCount, k requires 0 <= k < FieldCount => Cell(row, titles[k]))
  }

  /**
   * `colunas_faltantes`: the titles of `titles` the header lacks, in the
   * order of `titles`.
   */
  function MissingTitles(titles: seq<string>, header: seq<string>): (missing: seq<string>)
    ensures forall t :: t in missing <==> t in titles && t !in header
    ensures |missing| <= |titles|
    decreases |titles|
  {
    if titles == [] then []
    else
      assert titles == [titles[0]] + titles[1..];
      (if titles[0] in header then [] else [titles[0]]) + MissingTitles(titles[1..], header)
  }

  function TitledRows(titles: seq<string>, rows: seq<map<string, string>>): (cells: seq<seq<string>>)
    requires |titles| == FieldCount
    ensures |cells| == |rows|
    ensures forall i | 0 <= i < |rows| :: cells[i] == TitledCells(titles, rows[i])
  {
    seq(|rows|, i requires 0 <= i < |rows| => TitledCells(titles, rows[i]))
  }

  /**
   * The titled variant (`header=0, dtype=str`) under a column map `titles`:
   * the header is checked against every configured title before any row is
   * read.
   */
  function IngestTitledWith(titles: seq<string>, sheet: Option<TitledSheet>): (r: Result<seq<Alarm>, IngestError>)
    requires |titles| == FieldCount
    ensures sheet.None? ==> r == Failure(Unreadable)
    ensures sheet.Some? && MissingTitles(titles, sheet.value.header) != [] ==>
      r == Failure(MissingColumns(MissingTitles(titles, sheet.value.header)))
    ensures r.Success? <==>
      && sheet.Some?
      && (forall t | t in titles :: t in sheet.value.header)
      && forall i | 0 <= i < |sheet.value.rows| :: ParseInt(Cell(sheet.value.rows[i], titles[0])).Some?
    ensures r.Success? ==> TranscribesAll(r.value, TitledRows(titles, sheet.value.rows))
  {
    match sheet
    case None => Failure(Unreadable)
    case Some(TitledSheet(header, rows)) =>
      var missing := MissingTitles(titles, header);
      assert missing == [] <==> forall t | t in titles :: t in header by {
        if missing != [] { assert missing[0] in missing; }
      }
      if missing != [] then
        Failure(MissingColumns(missing))
      else
        var cells := TitledRows(titles, rows);
        assert AllRowsOk(cells) <==> forall i | 0 <= i < |rows| :: ParseInt(Cell(rows[i], titles[0])).Some? by {
          assert forall i | 0 <= i < |rows| :: RowOk(cells[i]) == ParseInt(Cell(rows[i], titles[0])).Some?;
        }
        IngestOrReport(cells)
  }

  /** The logical cells of every row of a titled sheet, under the source's column map. */
  function SourceCells(sheet: TitledSheet): seq<seq<string>> {
    TitledRows(ColumnTitles, sheet.rows)
  }

  /** The titled variant with the column map of the source. */
  function IngestTitled(sheet: Option<TitledSheet>): (r: Result<seq<Alarm>, IngestError>)
    ensures sheet.None? ==> r == Failure(Unreadable)
    ensures sheet.Some? && MissingTitles(ColumnTitles, sheet.value.header) != [] ==>
      r == Failure(MissingColumns(MissingTitles(ColumnTitles, sheet.value.header)))
    ensures r.Success? <==>
      && sheet.Some?
      && (forall t | t in ColumnTitles :: t in sheet.value.header)
      && forall i | 0 <= i < |sheet.value.rows| :: ParseInt(Cell(sheet.value.rows[i], ColumnTitles[0])).Some?
    ensures r.Success? ==> sheet.Some? && TranscribesAll(r.value, SourceCells(sheet.value))
  {
    IngestTitledWith(ColumnTitles, sheet)
  }

  /**
   * All or nothing: one identifier cell that `int()` rejects empties the
   * whole titled batch.
   */
  lemma TitledAllOrNothing(titles: seq<string>, sheet: TitledSheet, bad: nat)
    requires |titles| == FieldCount
    requires bad < |sheet.rows| && ParseInt(Cell(sheet.rows[bad], titles[0])).None?
    ensures CandidatesOf(IngestTitledWith(titles, Some(sheet))) == []
  {
  }

  /** A header without "ID do Alarme" yields no candidates, whatever the rows. */
  lemma MissingIdTitleYieldsNothing(sheet: TitledSheet)
    requires "ID do Alarme" !in sheet.header
    ensures IngestTitled(Some(sheet)) == Failure(MissingColumns(MissingTitles(ColumnTitles, sheet.header)))
    ensures CandidatesOf(IngestTitled(Some(sheet))) == []
  {
    assert "ID do Alarme" in MissingTitles(ColumnTitles, sheet.header);
  }
}
