# Alarm merger: a Dafny model

`AtualizadorDeAlarmes` reads alarm rows from a spreadsheet and merges them into a YAML list of
alarms. It comes in two variants:

- `transcribe_excel_2_yaml.py` reads columns by position and saves the list sorted by `alarm_id`.
- `transcribe_excel_2_yaml_filt.py` reads columns by their header titles and saves the list in
  append order.

This project models the pure core both variants share:

- **Value transform** (`_transformar_valor_booleano`). The text is trimmed and lower-cased.
  `"sim"` becomes `true`, `"não"` becomes `false`, and any other value is kept unchanged.
  Modules `Strings` and `ValueTransform`.
- **Candidate ingestion** (`_carregar_alarmes_excel`). The positional variant reads columns 0 to 7.
  The titled variant first checks that every configured title is in the header, then reads by title.
  Any failure yields no candidates at all. Modules `Integers` and `Ingestion`.
- **Conflict resolution and merge** (`executar_atualizacao`). The in-use set starts as the existing
  identifiers. Each candidate is probed upward from its requested identifier to the first free one,
  and that identifier joins the set at once. The result is the existing list followed by the
  processed candidates. Module `Conflicts`.
- **Save order** (`_salvar_yaml`). This is the flag `SaveOrder`: `AppendOrder` for the titled
  variant, `AscendingId` for the positional one. The sort is modelled as a stable insertion sort.
  Modules `Ordering` and `Update`.

Records are immutable datatypes (`Alarms`). `text1` is `Flag(bool)` or `Raw(text)`, which models
Python's dynamic typing of that field. I/O is replaced by parameters:

- the spreadsheet is `Option<rows>`, with `None` standing for an unreadable file;
- the existing YAML list is a plain sequence, and a missing or non-list file is the empty sequence;
- saving is the `Saved(records)` outcome, and the early return is `NothingToAdd`.

Where descriptions of the system and its code disagree, the model follows the code:

- `_salvar_yaml` in the positional variant says it keeps the original order
  (`transcribe_excel_2_yaml.py:89`, `:93`), but it sorts by `alarm_id` (`:90`).
  `Update.AscendingSaveReordersExisting` shows an existing list `[5, 1]` written back as `[1, 5, …]`.
  Both behaviours are kept, selected by `SaveOrder`.
- With no existing records, a candidate does not always keep its identifier. Candidates in one batch
  also collide with each other, so two requests for 3 receive 3 and 4
  (`Conflicts.RepeatedRequestIsRenumbered`). Identifiers are kept unchanged only when they are free
  and pairwise distinct (`Conflicts.ResolveKeepsFreeIds`).
- Output identifiers are pairwise distinct only when the existing identifiers already are. The code
  never renumbers existing records.

## Model

| member | source | states |
|---|---|---|
| `Strings.TrimOfPadded` | transcribe_excel_2_yaml_filt.py:34 | `strip()` removes all surrounding white space and nothing else: any padding around an unpadded text trims back to that text |
| `Strings.TrimIgnoresPadding` | transcribe_excel_2_yaml.py:25 | adding white space around any text does not change what `strip()` gives |
| `ValueTransform.Transform` | transcribe_excel_2_yaml_filt.py:33-39 | the value is recognised exactly when its stripped, lower-cased text is "sim" or "não"; it becomes `true` exactly for "sim"; an unrecognised value comes back unchanged |
| `ValueTransform.TransformRecognisesSpellings` | transcribe_excel_2_yaml_filt.py:33-39 | the result is `true` exactly when the value spells "sim" in any case with any surrounding white space, `false` exactly when it spells "não" that way, and otherwise the original value unchanged |
| `ValueTransform.NormalizeIsSpelling` | transcribe_excel_2_yaml.py:25-30 | trimmed and lower-cased text equals a lower-case word iff the value is that word in some case mix, padded with white space |
| `ValueTransform.TransformIgnoresPadding` | transcribe_excel_2_yaml.py:25 | padding a value with white space never changes whether it is recognised, nor the boolean it yields |
| `ValueTransform.TransformSamplesYes` | transcribe_excel_2_yaml.py:27-28 | "sim", " SIM " and "Sim" all become `true` |
| `ValueTransform.TransformSamplesNo` | transcribe_excel_2_yaml.py:29-30 | "não" and "NÃO" become `false` |
| `ValueTransform.TransformSamplesOther` | transcribe_excel_2_yaml.py:32-33 | "talvez" and "3" are returned as they were |
| `Integers.ParseInt` | transcribe_excel_2_yaml_filt.py:80 | `int()` succeeds exactly when the cell is an optional sign and one to 4300 ASCII digits (`MaxStrDigits`), with padding made only of white space `int()` skips (`strip()`'s set without U+001C–U+001F); an empty or blank cell (what `fillna('')` leaves) fails; a negative result needs a minus sign |
| `Integers.ParsePaddedDecimal` | transcribe_excel_2_yaml_filt.py:80 | a cell showing the decimal form of `n`, with white space `int()` skips around it, parses to exactly `n` when `n` has at most 4300 digits |
| `Integers.ParseSpelling` | transcribe_excel_2_yaml.py:65 | the value `int()` returns: white space it skips, an optional `+` or `-`, and leading zeros before the digits of `n`, 4300 digits at most, give `n`, or `-n` under a minus sign; so "007" gives 7 and "+5" gives 5 |
| `Integers.ParseRejectsLongDigits` | transcribe_excel_2_yaml_filt.py:80 | more than 4300 digits, leading zeros included, make `int()` fail whatever number they spell |
| `Integers.LongIdentifierSample` | transcribe_excel_2_yaml_filt.py:80 | 7 written with 4300 leading zeros is rejected |
| `Integers.ParseRejectsSeparator` | transcribe_excel_2_yaml_filt.py:80 | integer text next to one of U+001C–U+001F fails, although `strip()` would remove that character |
| `Integers.SeparatorSamples` | transcribe_excel_2_yaml_filt.py:80 | "\U{1C}7" and "7\U{1F}" are rejected |
| `Ingestion.RowRecord` | transcribe_excel_2_yaml.py:62-77 | a usable row becomes the record whose identifier is column 0 parsed, whose `text1` is column 3 through the transform, and whose other fields are columns 1, 2, 4, 5, 6, 7 verbatim |
| `Ingestion.IngestRows` | transcribe_excel_2_yaml.py:60-78 | the loop yields records iff every row has eight cells and an integer identifier; then there is one record per row, in row order, each built from its own row |
| `Ingestion.FirstBadRow` | transcribe_excel_2_yaml.py:60-78 | the row at which the loop raises is unusable, and every row before it is usable |
| `Ingestion.IngestOrReport` | transcribe_excel_2_yaml.py:58-86 | success iff every row is usable, with each record transcribing its row; a failure is reported against the first unusable row |
| `Ingestion.IngestPositional` | transcribe_excel_2_yaml.py:57-86 | an unreadable sheet is an error; otherwise success iff every row is usable, with one transcribed record per row in order |
| `Ingestion.PositionalAllOrNothing` | transcribe_excel_2_yaml.py:81-86 | one unusable row leaves no candidates at all, never a prefix |
| `Ingestion.PositionalRoundTrip` | transcribe_excel_2_yaml.py:60-78 | rows showing a list of records, whose identifiers have at most 4300 digits and whose `text1` survives the transform, are read back as exactly that list |
| `Ingestion.RowRecordOfRowOf` | transcribe_excel_2_yaml.py:62-77 | reading back the row that shows a record yields that record, when its identifier has at most 4300 digits |
| `Ingestion.MissingTitles` | transcribe_excel_2_yaml_filt.py:69-70 | the missing titles are exactly the configured titles absent from the header |
| `Ingestion.IngestTitledWith` | transcribe_excel_2_yaml_filt.py:63-104 | a missing configured title fails with exactly the missing titles before any row is read; success iff all titles are present and every identifier cell parses, with one record per row transcribing the titled cells |
| `Ingestion.IngestTitled` | transcribe_excel_2_yaml_filt.py:59-104 | with the source's column map: an unreadable sheet fails; a header missing any of the eight titles fails with exactly the missing ones; otherwise success iff every "ID do Alarme" cell parses, with one record per row transcribing that row's cells |
| `Ingestion.TitledAllOrNothing` | transcribe_excel_2_yaml_filt.py:96-101 | one identifier cell that `int()` rejects empties the whole titled batch |
| `Ingestion.MissingIdTitleYieldsNothing` | transcribe_excel_2_yaml_filt.py:69-73 | with the source's column map, a header without "ID do Alarme" fails as missing columns and yields no candidates |
| `Conflicts.Probe` | transcribe_excel_2_yaml_filt.py:126-132 | the probed identifier is the least one at or above the requested identifier that is not in use; a free identifier is kept |
| `Conflicts.ProbeIsLeastFree` | transcribe_excel_2_yaml.py:109-112 | an identifier is the least free one at or above the request iff it is the probe's answer |
| `Conflicts.ResolveIds` | transcribe_excel_2_yaml_filt.py:122-134 | one output per candidate, in order; only `alarm_id` may change, and never downward; assigned identifiers are disjoint from the seed set and pairwise distinct |
| `Conflicts.ResolveTakesLeastFree` | transcribe_excel_2_yaml_filt.py:125-133 | candidate `i` receives the least free identifier at or above its request, judged against the seed set plus the identifiers assigned to candidates before it |
| `Conflicts.ResolveKeepsFreeIds` | transcribe_excel_2_yaml.py:107-116 | a batch whose identifiers are free and pairwise distinct passes through unchanged |
| `Conflicts.RepeatedRequestIsRenumbered` | transcribe_excel_2_yaml.py:107-116 | with nothing in use, two candidates asking for 3 receive 3 and 4 |
| `Conflicts.Merge` | transcribe_excel_2_yaml_filt.py:122-136 | the result is the existing list unchanged and in order, followed by the candidates in input order with only their identifiers changed; appended record `i` gets the least identifier at or above its request that is free of the existing identifiers and of those given to the earlier candidates; the length is the sum; distinct existing identifiers give distinct output identifiers |
| `Conflicts.ConflictChainScenario` | transcribe_excel_2_yaml.py:104-118 | existing identifiers 1 and 5, candidates asking for 5 then 6: they receive 6 then 7 |
| `Ordering.InsertById` | transcribe_excel_2_yaml.py:90 | inserting into a sorted list keeps it sorted and adds exactly the inserted record |
| `Ordering.SortById` | transcribe_excel_2_yaml.py:90 | the sorted list is ascending by `alarm_id` and a permutation of the input |
| `Ordering.SortIsStable` | transcribe_excel_2_yaml.py:90 | records with equal identifiers keep their relative order, as Python's `sorted` guarantees |
| `Ordering.SortByIdIsTheStableSort` | transcribe_excel_2_yaml.py:90 | any ascending ordering that keeps each identifier's records in input order equals `SortById` |
| `Ordering.SortKeepsIdsDistinct` | transcribe_excel_2_yaml.py:90 | sorting cannot create a duplicate identifier |
| `Update.Update` | transcribe_excel_2_yaml_filt.py:115-137 | an empty batch returns early with no save; otherwise the saved list has the summed length and is a permutation of the merge; in append order it is exactly the merge; in ascending order it is sorted and keeps each identifier's records in merge order; distinct existing identifiers give distinct saved identifiers |
| `Update.UpdateFromPositional` | transcribe_excel_2_yaml.py:96-119 | a save happens exactly when ingestion succeeds with at least one row; a failed ingestion saves nothing; a save is sorted by identifier, holds one record per row plus every existing record, is a permutation of the merge of the ingested candidates, and keeps each identifier's records in merge order |
| `Update.UpdateFromTitled` | transcribe_excel_2_yaml_filt.py:113-137 | a save happens exactly when ingestion succeeds with at least one row; a failed ingestion saves nothing; a save is exactly the merge of the ingested candidates: the existing list as it was, then for each row a record with that row's cells, whose identifier only conflict resolution may have changed |
| `Update.MissingIdColumnChangesNothing` | transcribe_excel_2_yaml_filt.py:116-120 | a header without "ID do Alarme" leaves the destination untouched |
| `Update.AscendingSaveReordersExisting` | transcribe_excel_2_yaml.py:88-93 | despite the docstring and message, the sorting save writes an existing list `[5, 1]` back as `[1, 5, …]` |
| `Update.AppendSaveKeepsExisting` | transcribe_excel_2_yaml_filt.py:106-110 | the append-order save keeps every existing record at its position |

## Left out

- YAML loading and saving (`_carregar_alarmes_yaml`, `_salvar_yaml`'s `yaml.dump`) and file existence
  checks: the existing list is an input sequence (empty for a missing, corrupt or non-list file),
  and a save is the `Saved` outcome. Persist-then-reload round trips are therefore not stated.
- `pd.read_excel`: the sheet is given already read. `None` stands for `FileNotFoundError` or any other
  read failure. A titled sheet is a header plus rows keyed by title, and an absent cell reads as ""
  (`fillna('')`). Pandas' renaming of duplicate header titles is not modelled.
- Pandas cell types in the positional variant. Every cell is text, so `int()` of a float cell
  (truncation), `str()` of `NaN` ("nan"), and a spreadsheet boolean passed through the transform
  unchanged are not modelled.
- Python `int()` on text is modelled as surrounding white space, an optional sign and ASCII digits.
  The white space is `str.strip()`'s set without U+001C–U+001F, which `int()` does not skip.
  Digit-group underscores and non-ASCII digits are not accepted.
- `Integers.MaxStrDigits` is fixed at 4300, CPython's default limit on the digits `int()` converts
  since 3.11 and in the 2022 security releases of 3.7–3.10. The limit set through
  `sys.set_int_max_str_digits` or `PYTHONINTMAXSTRDIGITS`, including 0 for no limit, is not modelled.
  Neither are older interpreters, which have no limit.
- `str.lower()` is modelled for ASCII and Latin-1 capitals only, which covers "NÃO".
  `str.strip()` uses Python's full white-space set.
- Existing records whose `alarm_id` is missing or not an integer: identifiers are typed `int` here.
- The source reports errors only through `print`; the model keeps the error kind
  (`Unreadable`, `MissingColumns`, `TooFewColumns`, `MalformedIdentifier`) but, like the source,
  turns every one into an empty batch. For a short positional row the source may fail on column 3
  before column 0; either way the batch is empty.
- All console output, including the conflict messages.
- The in-place update of the candidate dictionary (`alarme_novo['alarm_id'] = …`) is modelled as
  building a new record.
