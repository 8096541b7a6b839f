/**
 * `executar_atualizacao`: load, ingest, return early on an empty batch,
 * resolve conflicts, concatenate, and save in the variant's order.
 */
module Update {
  import opened Wrappers
  import opened Alarms
  import opened Conflicts
  import opened Ordering
  import opened Ingestion

  /**
   * How the final list is written: as appended (the titled variant's
   * `_salvar_yaml`) or sorted ascending by identifier (the positional one's).
   */
  datatype SaveOrder = AppendOrder | AscendingId

  /** What the update does to the destination. */
  datatype Outcome =
    | NothingToAdd                  // early return: no save, the file is untouched
    | Saved(records: seq<Alarm>)    // the list handed to the serializer

  function Arrange(merged: seq<Alarm>, order: SaveOrder): seq<Alarm> {
    match order
    case AppendOrder => merged
    case AscendingId => SortById(merged)
  }

  /** Merging `batch` into `existing`, saved in `order`. */
  function Update(existing: seq<Alarm>, batch: seq<Alarm>, order: SaveOrder): (r: Outcome)
    ensures r.NothingToAdd? <==> batch == []
    ensures r.Saved? ==> |r.records| == |existing| + |batch|
    ensures r.Saved? ==> multiset(r.records) == multiset(Merge(existing, batch))
    ensures r.Saved? && order == AppendOrder ==> r.records == Merge(existing, batch)
    ensures r.Saved? && order == AscendingId ==>
      && SortedById(r.records)
      && forall k :: WithId(r.records, k) == WithId(Merge(existing, batch), k)
    ensures r.Saved? && DistinctIds(existing) ==> DistinctIds(r.records)
  {
    if batch == [] then
      NothingToAdd
    else
      var merged := Merge(existing, batch);
      SortFacts(merged);
      assert |multiset(Arrange(merged, order))| == |merged|;
      Saved(Arrange(merged, order))
  }

  lemma SortFacts(s: seq<Alarm>)
    ensures forall k :: WithId(SortById(s), k) == WithId(s, k)
    ensures DistinctIds(s) ==> DistinctIds(SortById(s))
  {
    forall k ensures WithId(SortById(s), k) == WithId(s, k) {
      SortIsStable(s, k);
    }
    if DistinctIds(s) {
      SortKeepsIdsDistinct(s);
    }
  }

  /** The positional variant saves sorted by identifier. */
  const PositionalOrder: SaveOrder := AscendingId

  /** The titled variant saves in append order. */
  const TitledOrder: SaveOrder := AppendOrder

  /**
   * `executar_atualizacao` of the positional variant: a save happens exactly
   * when the sheet yields at least one candidate, and it holds the existing
   * records and the merged candidates, sorted by identifier.
   */
  function UpdateFromPositional(existing: seq<Alarm>, sheet: Option<seq<seq<string>>>): (r: Outcome)
    ensures IngestPositional(sheet).Failure? ==> r == NothingToAdd
    ensures r.Saved? <==> IngestPositional(sheet).Success? && |sheet.value| > 0
    ensures r.Saved? ==>
      && |r.records| == |existing| + |sheet.value|
      && SortedById(r.records)
      && multiset(r.records) == multiset(Merge(existing, IngestPositional(sheet).value))
      && (forall k :: WithId(r.records, k) == WithId(Merge(existing, IngestPositional(sheet).value), k))
      && multiset(existing) <= multiset(r.records)
  {
    var ingested := IngestPositional(sheet);
    var r := Update(existing, CandidatesOf(ingested), PositionalOrder);
    if r.Saved? then
      PrefixInMultiset(existing, Merge(existing, ingested.value));
      r
    else
      r
  }

  /** A list's prefix is contained in it as a multiset. */
  lemma PrefixInMultiset(p: seq<Alarm>, s: seq<Alarm>)
    requires |p| <= |s| && s[..|p|] == p
    ensures multiset(p) <= multiset(s)
  {
    assert s == p + s[|p|..];
  }

  /**
   * `executar_atualizacao` of the titled variant: a save happens exactly when
   * the sheet yields at least one candidate; it keeps the existing list as it
   * was and appends one record per row, carrying that row's cells with only
   * the identifier possibly changed by conflict resolution.
   */
  function UpdateFromTitled(existing: seq<Alarm>, sheet: Option<TitledSheet>): (r: Outcome)
    ensures IngestTitled(sheet).Failure? ==> r == NothingToAdd
    ensures r.Saved? <==> IngestTitled(sheet).Success? && |sheet.value.rows| > 0
    ensures r.Saved? ==>
      && r.records == Merge(existing, IngestTitled(sheet).value)
      && |r.records| == |existing| + |sheet.value.rows|
      && r.records[..|existing|] == existing
      && forall i | 0 <= i < |sheet.value.rows| ::
           DescribesFields(r.records[|existing| + i], SourceCells(sheet.value)[i])
  {
    var ingested := IngestTitled(sheet);
    var r := Update(existing, CandidatesOf(ingested), TitledOrder);
    if r.Saved? then
      AppendedDescribeRows(existing, ingested.value, r.records, SourceCells(sheet.value));
      r
    else
      r
  }

  /**
   * Conflict resolution changes only identifiers, so the appended records
   * still carry the cells of the rows their candidates came from.
   */
  lemma AppendedDescribeRows(existing: seq<Alarm>, batch: seq<Alarm>, saved: seq<Alarm>, rows: seq<seq<string>>)
    requires TranscribesAll(batch, rows)
    requires saved == Merge(existing, batch)
    ensures forall i | 0 <= i < |rows| :: DescribesFields(saved[|existing| + i], rows[i])
  {
    forall i | 0 <= i < |rows| ensures DescribesFields(saved[|existing| + i], rows[i]) {
      assert SameButId(batch[i], saved[|existing| + i]);
      assert Transcribes(batch[i], rows[i]);
    }
  }

  /** A header without "ID do Alarme" leaves the destination untouched. */
  lemma MissingIdColumnChangesNothing(existing: seq<Alarm>, sheet: TitledSheet)
    requires "ID do Alarme" !in sheet.header
    ensures UpdateFromTitled(existing, Some(sheet)) == NothingToAdd
  {
    MissingIdTitleYieldsNothing(sheet);
  }

  /**
   * The sorting save does not keep the existing order it is documented to
   * keep: an existing list [5, 1] is written back as [1, 5, ...].
   */
  lemma AscendingSaveReordersExisting(e5: Alarm, e1: Alarm, c: Alarm)
    requires e5.alarmId == 5 && e1.alarmId == 1 && c.alarmId == 9
    ensures var r := Update([e5, e1], [c], AscendingId);
      r.Saved? && r.records == [e1, e5, c] && r.records[..2] != [e5, e1]
  {
    MergeWithoutConflict(e5, e1, c);
    SortSample(e5, e1, c);
    assert e5 != e1;
  }

  lemma MergeWithoutConflict(e5: Alarm, e1: Alarm, c: Alarm)
    requires e5.alarmId == 5 && e1.alarmId == 1 && c.alarmId == 9
    ensures Merge([e5, e1], [c]) == [e5, e1, c]
  {
    assert IdSet([e5, e1]) == {5, 1} by {
      assert [e5, e1][0] == e5 && [e5, e1][1] == e1;
    }
    assert Probe({5, 1}, 9) == 9;
    assert ResolveIds({5, 1}, [c]) == [c] by {
      assert [c][1..] == [];
    }
  }

  lemma SortSample(e5: Alarm, e1: Alarm, c: Alarm)
    requires e5.alarmId == 5 && e1.alarmId == 1 && c.alarmId == 9
    ensures SortById([e5, e1, c]) == [e1, e5, c]
  {
    var s := [e5, e1, c];
    assert s[1..] == [e1, c];
    assert [e1, c][1..] == [c];
    assert [c][1..] == [];
    assert SortById([c]) == [c];
    assert InsertById(e1, [c]) == [e1, c];
    assert SortById([e1, c]) == [e1, c];
    assert InsertById(e5, [c]) == [e5, c];
    assert [e1, c][1..] == [c];
    assert InsertById(e5, [e1, c]) == [e1] + [e5, c];
  }

  /** The append save keeps every existing record where it was. */
  lemma AppendSaveKeepsExisting(existing: seq<Alarm>, batch: seq<Alarm>)
    requires batch != []
    ensures var r := Update(existing, batch, AppendOrder);
      r.Saved? && forall i | 0 <= i < |existing| :: r.records[i] == existing[i]
  {
    var r := Update(existing, batch, AppendOrder);
    assert r.records[..|existing|] == existing;
    forall i | 0 <= i < |existing| ensures r.records[i] == existing[i] {
      assert r.records[..|existing|][i] == r.records[i];
    }
  }
}
