/** The document table built by `load_data` in src/utils.py: each batch row
    of the metadata source becomes one record per document type, with the
    storage key derived from a fixed naming convention. */
module Metadata {
  import opened Wrappers
  import opened Text

  /** The two fixed document types, in the order the loader emits them. */
  datatype DocType = CI | PL {
    function Name(): string {
      match this
      case CI => "CI"
      case PL => "PL"
    }
  }

  const DocTypes: seq<DocType> := [CI, PL]

  /** One row of the batch metadata table: the `Batch` and `batch_count`
      columns, and the optional `portal_status` and `reason` columns (None
      when the table has no such column). */
  datatype SourceRow = SourceRow(batch: string, batchCount: int, portalStatus: Option<string>, reason: Option<string>)

  /** One row of the document table: one (batch, type, version) file. */
  datatype DocumentRecord = DocumentRecord(
    batch: string,
    docType: DocType,
    version: int,
    filePath: string,
    filename: string,
    timestamp: string,
    portalStatus: string,
    reason: string)

  /** `{batch}_{count}.pdf` */
  function FileName(batch: string, count: int): string {
    batch + "_" + IntToString(count) + ".pdf"
  }

  /** `{type}/{batch}/{batch}_{count}.pdf`, the object-storage key. */
  function StorageKey(docType: DocType, batch: string, count: int): string {
    docType.Name() + "/" + batch + "/" + FileName(batch, count)
  }

  /** The record the loader appends for one source row and one type; the
      status defaults to "Unknown" and the reason to "" when their columns
      are missing. */
  function MakeRecord(row: SourceRow, docType: DocType, now: string): DocumentRecord {
    DocumentRecord(
      row.batch, docType, row.batchCount,
      StorageKey(docType, row.batch, row.batchCount),
      FileName(row.batch, row.batchCount),
      now,
      row.portalStatus.GetOr("Unknown"),
      row.reason.GetOr(""))
  }

  /** The records of one source row: one per type, in the order of
      DocTypes. */
  function RowRecords(row: SourceRow, now: string): seq<DocumentRecord> {
    seq(|DocTypes|, k requires 0 <= k < |DocTypes| => MakeRecord(row, DocTypes[k], now))
  }

  /** The whole document table for a list of source rows. */
  function Expanded(rows: seq<SourceRow>, now: string): seq<DocumentRecord> {
    if rows == [] then []
    else RowRecords(rows[0], now) + Expanded(rows[1..], now)
  }

  /** Expansion works row by row, so a table grown by one row grows the
      document table by that row's two records. */
  lemma {:induction false} ExpandedAppend(rows: seq<SourceRow>, row: SourceRow, now: string)
    ensures Expanded(rows + [row], now) == Expanded(rows, now) + RowRecords(row, now)
    decreases |rows|
  {
    if rows != [] {
      assert (rows + [row])[1..] == rows[1..] + [row];
      ExpandedAppend(rows[1..], row, now);
    }
  }

  /** Every source row yields two records. */
  lemma {:induction false} ExpandedLength(rows: seq<SourceRow>, now: string)
    ensures |Expanded(rows, now)| == 2 * |rows|
    decreases |rows|
  {
    if rows != [] {
      ExpandedLength(rows[1..], now);
    }
  }

  /** k source rows give exactly 2k records; row j gives record 2j (type CI)
      and record 2j+1 (type PL), each carrying that row's batch, count,
      status and reason and the path built from them. */
  lemma {:induction false} ExpandedAt(rows: seq<SourceRow>, now: string, j: nat)
    requires j < |rows|
    ensures |Expanded(rows, now)| == 2 * |rows|
    ensures Expanded(rows, now)[2 * j] == MakeRecord(rows[j], CI, now)
    ensures Expanded(rows, now)[2 * j + 1] == MakeRecord(rows[j], PL, now)
    decreases |rows|
  {
    ExpandedLength(rows, now);
    var head := RowRecords(rows[0], now);
    assert |head| == 2;
    if j > 0 {
      ExpandedAt(rows[1..], now, j - 1);
      assert rows[1..][j - 1] == rows[j];
    } else {
      assert head[0] == MakeRecord(rows[0], CI, now) && head[1] == MakeRecord(rows[0], PL, now);
    }
  }

  /** The nested loop of `load_data`: for each row, for each type, append a
      record. */
  method ExpandRows(rows: seq<SourceRow>, now: string) returns (records: seq<DocumentRecord>)
    ensures records == Expanded(rows, now)
    ensures |records| == 2 * |rows|
  {
    records := [];
    for j := 0 to |rows|
      invariant records == Expanded(rows[..j], now)
    {
      var row := rows[j];
      ghost var before := records;
      for k := 0 to |DocTypes|
        invariant records == before + RowRecords(row, now)[..k]
      {
        var docType := DocTypes[k];
        assert RowRecords(row, now)[..k + 1] == RowRecords(row, now)[..k] + [MakeRecord(row, docType, now)];
        records := records + [MakeRecord(row, docType, now)];
      }
      assert RowRecords(row, now)[..|DocTypes|] == RowRecords(row, now);
      assert rows[..j + 1] == rows[..j] + [row];
      ExpandedAppend(rows[..j], row, now);
    }
    assert rows[..|rows|] == rows;
    ExpandedLength(rows, now);
  }

  /** The built-in table used when data/Manual_Review.csv does not exist. */
  const DemoRows: seq<SourceRow> := [
    SourceRow("B001", 1, Some("Pending"), Some("")),
    SourceRow("B001", 2, Some("Accepted"), Some("Approved by agent")),
    SourceRow("B002", 1, Some("Rejected"), Some("Missing information")),
    SourceRow("B002", 2, Some("Pending"), Some("")),
    SourceRow("B003", 1, Some("Accepted"), Some("Complete documentation")),
    SourceRow("B003", 2, Some("In Review"), Some("Waiting for verification"))
  ]

  /** `load_data`: the rows of the metadata file when there is one
      (`csvRows` is None when the file is absent), the demo table otherwise,
      expanded into the document table. */
  method LoadData(csvRows: Option<seq<SourceRow>>, now: string) returns (records: seq<DocumentRecord>)
    ensures csvRows.Some? ==> records == Expanded(csvRows.value, now)
    ensures csvRows.None? ==> records == Expanded(DemoRows, now)
  {
    var rows := if csvRows.Some? then csvRows.value else DemoRows;
    records := ExpandRows(rows, now);
  }

  /** The versions present for one (batch, type) in a document table. */
  function VersionSet(records: seq<DocumentRecord>, batch: string, docType: DocType): set<int> {
    set r | r in records && r.batch == batch && r.docType == docType :: r.version
  }

  /** The counts a batch has in the source table. */
  function BatchCounts(rows: seq<SourceRow>, batch: string): set<int> {
    set row | row in rows && row.batch == batch :: row.batchCount
  }

  lemma VersionSetConcat(a: seq<DocumentRecord>, b: seq<DocumentRecord>, batch: string, docType: DocType)
    ensures VersionSet(a + b, batch, docType) == VersionSet(a, batch, docType) + VersionSet(b, batch, docType)
  {
    forall r | r in a + b ensures r in a || r in b {}
  }

  lemma BatchCountsCons(rows: seq<SourceRow>, batch: string)
    requires rows != []
    ensures BatchCounts(rows, batch) == BatchCounts([rows[0]], batch) + BatchCounts(rows[1..], batch)
  {
    assert rows == [rows[0]] + rows[1..];
    forall row | row in rows ensures row == rows[0] || row in rows[1..] {}
  }

  /** The records of one row carry its count under each type. */
  lemma VersionSetRow(row: SourceRow, now: string, batch: string, docType: DocType)
    ensures VersionSet(RowRecords(row, now), batch, docType) == BatchCounts([row], batch)
  {
    var head := RowRecords(row, now);
    var k := if docType == CI then 0 else 1;
    assert head[k] == MakeRecord(row, docType, now);
    assert head[k] in head;
    forall r | r in head ensures r.batch == row.batch && r.version == row.batchCount {}
    assert [row][0] == row;
  }

  /** Both document types of a batch carry exactly the counts of that batch's
      source rows. */
  lemma {:induction false} VersionSetExpanded(rows: seq<SourceRow>, now: string, batch: string, docType: DocType)
    ensures VersionSet(Expanded(rows, now), batch, docType) == BatchCounts(rows, batch)
    decreases |rows|
  {
    if rows != [] {
      VersionSetExpanded(rows[1..], now, batch, docType);
      VersionSetConcat(RowRecords(rows[0], now), Expanded(rows[1..], now), batch, docType);
      BatchCountsCons(rows, batch);
      VersionSetRow(rows[0], now, batch, docType);
    } else {
      assert VersionSet([], batch, docType) == {};
    }
  }

  /** Each batch of the demo table has the counts 1 and 2 and no other. */
  lemma DemoBatchCounts(b: string, i: nat)
    requires i < 6 && i % 2 == 0 && b == DemoRows[i].batch
    ensures BatchCounts(DemoRows, b) == {1, 2}
  {
    assert DemoRows[i] in DemoRows && DemoRows[i].batchCount == 1;
    assert DemoRows[i + 1] in DemoRows && DemoRows[i + 1].batch == b && DemoRows[i + 1].batchCount == 2;
    forall row | row in DemoRows ensures row.batchCount == 1 || row.batchCount == 2 {
      var k :| 0 <= k < |DemoRows| && DemoRows[k] == row;
    }
  }

  /** The demo table gives twelve records, and versions 1 and 2 for each type
      of each of its three batches. */
  lemma DemoTable(now: string)
    ensures |Expanded(DemoRows, now)| == 12
    ensures forall b, t :: b in ["B001", "B002", "B003"] ==> VersionSet(Expanded(DemoRows, now), b, t) == {1, 2}
  {
    ExpandedLength(DemoRows, now);
    forall b, t | b in ["B001", "B002", "B003"]
      ensures VersionSet(Expanded(DemoRows, now), b, t) == {1, 2}
    {
      VersionSetExpanded(DemoRows, now, b, t);
      var i := if b == "B001" then 0 else if b == "B002" then 2 else 4;
      DemoBatchCounts(b, i);
    }
  }

  /** In every record the path is the type folder, the batch folder and the
      file name. */
  lemma RecordPathLayout(rows: seq<SourceRow>, now: string)
    ensures forall r :: r in Expanded(rows, now) ==>
      r.filePath == r.docType.Name() + "/" + r.batch + "/" + r.filename &&
      r.filename == r.batch + "_" + IntToString(r.version) + ".pdf"
  {
    forall r | r in Expanded(rows, now)
      ensures r.filePath == r.docType.Name() + "/" + r.batch + "/" + r.filename
      ensures r.filename == r.batch + "_" + IntToString(r.version) + ".pdf"
    {
      ExpandedLength(rows, now);
      var k :| 0 <= k < |Expanded(rows, now)| && Expanded(rows, now)[k] == r;
      ExpandedAt(rows, now, k / 2);
    }
  }

  /** Two versions of one batch's document never share a storage key. */
  lemma StorageKeyInjective(docType: DocType, batch: string, c1: int, c2: int)
    ensures StorageKey(docType, batch, c1) == StorageKey(docType, batch, c2) ==> c1 == c2
  {
    var prefix := docType.Name() + "/" + batch + "/" + batch + "_";
    var s1, s2 := IntToString(c1), IntToString(c2);
    assert StorageKey(docType, batch, c1) == prefix + s1 + ".pdf";
    assert StorageKey(docType, batch, c2) == prefix + s2 + ".pdf";
    if StorageKey(docType, batch, c1) == StorageKey(docType, batch, c2) {
      assert |s1| == |s2|;
      assert s1 == (prefix + s1 + ".pdf")[|prefix|..|prefix| + |s1|];
      assert s2 == (prefix + s2 + ".pdf")[|prefix|..|prefix| + |s2|];
      IntToStringInjective(c1, c2);
    }
  }
}
