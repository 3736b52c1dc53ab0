/** The review session of src/app.py: the values kept in Streamlit's
    session state across reruns, and the handlers that change them. */
module Review {
  import opened Wrappers
  import opened Text
  import opened Metadata
  import opened ComparisonPairs
  import AuditExport
  import opened StatusFormat

  const NotReviewed: string := "not-reviewed"

  /** The three choices of the "Decision" select box. */
  datatype Decision = Accept | Reject | RequestMoreInformation {
    function Label(): string {
      match this
      case Accept => "Accept"
      case Reject => "Reject"
      case RequestMoreInformation => "Request More Information"
    }
  }

  /** One audit-trail entry, as built by the "Save Batch Review" handler. */
  datatype ReviewEntry = ReviewEntry(
    timestamp: string,
    batch: string,
    docType: string,
    v1v2: string,
    status: string,
    notes: string,
    decision: string)

  /** The field names of an entry, in the order the handler writes them. */
  const EntryColumns: seq<string> := ["timestamp", "batch", "doc_type", "v1_v2", "status", "notes", "decision"]

  /** An entry as the dictionary the exporter receives. */
  function EntryRow(e: ReviewEntry): AuditExport.Entry {
    map["timestamp" := e.timestamp, "batch" := e.batch, "doc_type" := e.docType, "v1_v2" := e.v1v2,
        "status" := e.status, "notes" := e.notes, "decision" := e.decision]
  }

  function EntryRows(log: seq<ReviewEntry>): seq<AuditExport.Entry> {
    seq(|log|, i requires 0 <= i < |log| => EntryRow(log[i]))
  }

  /** The key of the review-status dictionary: `{batch}/{doc_type}`. */
  function StatusKey(batch: string, docType: DocType): string {
    batch + "/" + docType.Name()
  }

  // ---------------------------------------------------------------------
  // The version list of the current selection: the versions of the records
  // matching the selected batch and type, sorted and without duplicates.
  // ---------------------------------------------------------------------

  /** `s` with `x` added in its place, unless it is already there. */
  function InsertSorted(x: int, s: seq<int>): (r: seq<int>)
    requires StrictlyAscending(s)
    ensures StrictlyAscending(r)
    ensures forall v :: v in r <==> v == x || v in s
  {
    if s == [] then [x]
    else if x < s[0] then [x] + s
    else if x == s[0] then s
    else
      var tail := InsertSorted(x, s[1..]);
      AscendingTail(s);
      AscendingCons(s[0], tail);
      [s[0]] + tail
  }

  /** An ascending list is its head and then larger values. */
  lemma AscendingTail(s: seq<int>)
    requires StrictlyAscending(s) && s != []
    ensures StrictlyAscending(s[1..])
    ensures forall v :: v in s <==> v == s[0] || v in s[1..]
    ensures forall v :: v in s[1..] ==> s[0] < v
  {
    assert s == [s[0]] + s[1..];
    forall v | v in s[1..] ensures s[0] < v {
      var k :| 0 <= k < |s[1..]| && s[1..][k] == v;
      assert s[k + 1] == v;
    }
  }

  /** A value below every element of an ascending list can go in front. */
  lemma AscendingCons(h: int, t: seq<int>)
    requires StrictlyAscending(t)
    requires forall v :: v in t ==> h < v
    ensures StrictlyAscending([h] + t)
    ensures forall v :: v in [h] + t <==> v == h || v in t
  {
    var r := [h] + t;
    forall i, j | 0 <= i < j < |r| ensures r[i] < r[j] {
      assert r[j] == t[j - 1];
      if i > 0 {
        assert r[i] == t[i - 1];
      } else {
        assert t[j - 1] in t;
      }
    }
  }

  /** The versions of the records of one batch and type, in table order (the
      dataframe filter). */
  function MatchingVersions(records: seq<DocumentRecord>, batch: string, docType: DocType): (vs: seq<int>)
    ensures forall v :: v in vs <==> v in VersionSet(records, batch, docType)
  {
    if records == [] then []
    else
      var rest := MatchingVersions(records[1..], batch, docType);
      assert forall r :: r in records ==> r == records[0] || r in records[1..];
      if records[0].batch == batch && records[0].docType == docType then [records[0].version] + rest else rest
  }

  /** `sorted(set(vs))`. */
  function SortedDistinct(vs: seq<int>): (r: seq<int>)
    ensures StrictlyAscending(r)
    ensures forall v :: v in r <==> v in vs
  {
    if vs == [] then []
    else InsertSorted(vs[0], SortedDistinct(vs[1..]))
  }

  /** `sorted(filtered['version'].unique())`: every version of the batch and
      type exactly once, in ascending order. */
  function VersionsFor(records: seq<DocumentRecord>, batch: string, docType: DocType): (vs: seq<int>)
    ensures StrictlyAscending(vs)
    ensures forall v :: v in vs <==> v in VersionSet(records, batch, docType)
  {
    SortedDistinct(MatchingVersions(records, batch, docType))
  }

  /** A sorted, de-duplicated list is determined by the versions it holds. */
  lemma {:induction false} AscendingUnique(a: seq<int>, b: seq<int>)
    requires StrictlyAscending(a) && StrictlyAscending(b)
    requires forall v :: v in a <==> v in b
    ensures a == b
    decreases |a|
  {
    if a != [] {
      assert a[0] in a;
      assert b != [];
    }
    if b != [] {
      assert b[0] in b;
      assert a != [];
    }
    if a != [] {
      assert a[0] in b && b[0] in a;
      assert a[0] == b[0];
      forall v ensures v in a[1..] <==> v in b[1..] {
        if v in a[1..] {
          assert v in a && v != a[0];
        }
        if v in b[1..] {
          assert v in b && v != b[0];
        }
      }
      AscendingUnique(a[1..], b[1..]);
      assert a == [a[0]] + a[1..] && b == [b[0]] + b[1..];
    }
  }

  /** On the demo table every type of every batch offers versions [1, 2]. */
  lemma DemoVersions(now: string, b: string, t: DocType)
    requires b in ["B001", "B002", "B003"]
    ensures VersionsFor(Expanded(DemoRows, now), b, t) == [1, 2]
  {
    DemoTable(now);
    AscendingUnique(VersionsFor(Expanded(DemoRows, now), b, t), [1, 2]);
  }

  /** Python string order: code point by code point, a prefix first. */
  predicate StrLe(a: string, b: string) {
    if a == [] then true
    else if b == [] then false
    else if a[0] != b[0] then a[0] < b[0]
    else StrLe(a[1..], b[1..])
  }

  lemma StrLeReflexive(a: string)
    ensures StrLe(a, a)
  {
  }

  lemma {:induction false} StrLeTotal(a: string, b: string)
    ensures StrLe(a, b) || StrLe(b, a)
    decreases |a|
  {
    if a != [] && b != [] && a[0] == b[0] {
      StrLeTotal(a[1..], b[1..]);
    }
  }

  lemma {:induction false} StrLeTransitive(a: string, b: string, c: string)
    requires StrLe(a, b) && StrLe(b, c)
    ensures StrLe(a, c)
    decreases |a|
  {
    if a != [] && b != [] && c != [] && a[0] == b[0] && b[0] == c[0] {
      StrLeTransitive(a[1..], b[1..], c[1..]);
    }
  }

  /** `sorted(df['batch'].unique())[0]`: the batch first in string order. */
  function FirstBatch(records: seq<DocumentRecord>): (b: string)
    requires records != []
    ensures exists r | r in records :: r.batch == b
    ensures forall r | r in records :: StrLe(b, r.batch)
  {
    StrLeReflexive(records[0].batch);
    if |records| == 1 then records[0].batch
    else
      var m := FirstBatch(records[1..]);
      StrLeTotal(records[0].batch, m);
      assert forall r | r in records :: r == records[0] || r in records[1..];
      if StrLe(records[0].batch, m) then
        assert forall r | r in records[1..] :: StrLe(records[0].batch, r.batch) by {
          forall r | r in records[1..] ensures StrLe(records[0].batch, r.batch) {
            StrLeTransitive(records[0].batch, m, r.batch);
          }
        }
        records[0].batch
      else m
  }

  // ---------------------------------------------------------------------
  // The session
  // ---------------------------------------------------------------------

  class Session {
    /** The document table loaded at the top of the script. */
    const records: seq<DocumentRecord>

    var batchStatuses: map<string, string>
    var auditTrail: seq<ReviewEntry>
    var reviewNotes: string
    var reviewDecision: Decision
    var batch: string
    var docType: DocType
    /** None while the session has no `version_1` (resp. `version_2`). */
    var version1: Option<int>
    var version2: Option<int>
    var selectedComparison: Option<Pair>

    /** The version list of the current batch and type. */
    function CurrentVersions(): (vs: seq<int>)
      reads this
    {
      VersionsFor(records, batch, docType)
    }

    /** The only status ever written is "reviewed". */
    predicate StatusesReviewed()
      reads this
    {
      forall k | k in batchStatuses :: batchStatuses[k] == Reviewed
    }

    /** Once the current selection has versions, both chosen versions are
        among them. */
    predicate Synced()
      reads this
    {
      var vs := CurrentVersions();
      vs != [] ==>
        version1.Some? && version1.value in vs && version2.Some? && version2.value in vs
    }

    predicate Valid()
      reads this
    {
      StatusesReviewed() && Synced()
    }

    /** `get_batch_status`: "reviewed" exactly for the (batch, type) keys a
        save has written, "not-reviewed" for every other key. */
    function GetBatchStatus(b: string, t: DocType): (status: string)
      reads this
      ensures StatusKey(b, t) !in batchStatuses ==> status == NotReviewed
      ensures StatusesReviewed() ==> (status == Reviewed <==> StatusKey(b, t) in batchStatuses)
      ensures StatusesReviewed() ==> status == Reviewed || status == NotReviewed
    {
      var key := StatusKey(b, t);
      if key in batchStatuses then batchStatuses[key] else NotReviewed
    }

    /** The first run of the script: empty statuses and log, the default
        notes and decision, the first batch, type CI, and then the version
        choice of `update_document_options`. The script cannot proceed on an
        empty table, whose missing `batch` column raises. */
    constructor (records: seq<DocumentRecord>)
      requires records != []
      ensures this.records == records
      ensures batchStatuses == map[] && auditTrail == []
      ensures reviewNotes == "" && reviewDecision == Accept
      ensures batch == FirstBatch(records) && docType == CI
      ensures selectedComparison == None
      ensures var vs := CurrentVersions();
        && (vs == [] ==> version1 == None && version2 == None)
        && (vs != [] ==> version1 == Some(vs[0]) && version2 == Some(if |vs| > 1 then vs[1] else vs[0]))
      ensures Valid()
    {
      this.records := records;
      batchStatuses := map[];
      auditTrail := [];
      reviewNotes := "";
      reviewDecision := Accept;
      batch := FirstBatch(records);
      docType := CI;
      version1 := None;
      version2 := None;
      selectedComparison := None;
      new;
      UpdateDocumentOptions();
    }

    /** The versions `update_document_options` chooses from the previous
        choice `v1`, `v2`: with a non-empty version list, a previous choice
        still in the list is kept, otherwise version 1 becomes the first
        version and version 2 the second (the first when there is only one);
        an empty list keeps both. */
    predicate VersionsChosen(v1: Option<int>, v2: Option<int>)
      reads this
    {
      var vs := CurrentVersions();
      && (vs == [] ==> version1 == v1 && version2 == v2)
      && (vs != [] ==> version1 == if v1.Some? && v1.value in vs then v1 else Some(vs[0]))
      && (vs != [] ==> version2 == if v2.Some? && v2.value in vs then v2
                                    else Some(if |vs| > 1 then vs[1] else vs[0]))
    }

    /** `update_document_options`: with a non-empty version list, a chosen
        version that is missing or not in the list is replaced, version 1 by
        the first version and version 2 by the second (the first when there is
        only one); an empty list changes nothing. */
    method UpdateDocumentOptions()
      modifies this`version1, this`version2
      ensures VersionsChosen(old(version1), old(version2))
      ensures Synced()
    {
      var vs := VersionsFor(records, batch, docType);
      if |vs| >= 1 {
        if version1.None? || version1.value !in vs {
          version1 := Some(vs[0]);
        }
        if version2.None? || version2.value !in vs {
          version2 := Some(if |vs| > 1 then vs[1] else vs[0]);
        }
      }
    }

    /** The batch select box with its `on_batch_change` callback. */
    method ChangeBatch(b: string)
      requires Valid()
      modifies this`batch, this`version1, this`version2
      ensures batch == b && Valid()
      ensures VersionsChosen(old(version1), old(version2))
    {
      batch := b;
      UpdateDocumentOptions();
    }

    /** The document-type radio with its `on_doc_type_change` callback. */
    method ChangeDocType(t: DocType)
      requires Valid()
      modifies this`docType, this`version1, this`version2
      ensures docType == t && Valid()
      ensures VersionsChosen(old(version1), old(version2))
    {
      docType := t;
      UpdateDocumentOptions();
    }

    /** The comparison panel: with fewer than two versions it warns and stops
        (None); otherwise it offers the comparison pairs and, the first time,
        selects the first two versions. */
    method OpenComparison() returns (pairs: Option<seq<Pair>>)
      requires Valid()
      modifies this`selectedComparison
      ensures Valid()
      ensures var vs := CurrentVersions();
        && (|vs| < 2 ==> pairs == None && selectedComparison == old(selectedComparison))
        && (|vs| >= 2 ==> pairs == Some(GenerateComparisonPairs(vs)))
        && (|vs| >= 2 ==> selectedComparison == if old(selectedComparison).Some? then old(selectedComparison) else Some((vs[0], vs[1])))
    {
      var vs := VersionsFor(records, batch, docType);
      if |vs| < 2 {
        return None;
      }
      pairs := Some(GenerateComparisonPairs(vs));
      if selectedComparison.None? {
        selectedComparison := Some((vs[0], vs[1]));
      }
    }

    /** The button of pair `i`: it selects the pair and makes its two versions
        the chosen ones, an older on the left and a newer on the right. */
    method SelectPair(pairs: seq<Pair>, i: nat)
      requires Valid()
      requires pairs == GenerateComparisonPairs(CurrentVersions()) && i < |pairs|
      modifies this`selectedComparison, this`version1, this`version2
      ensures selectedComparison == Some(pairs[i])
      ensures version1 == Some(pairs[i].0) && version2 == Some(pairs[i].1)
      ensures version1.value < version2.value
      ensures Valid()
    {
      var (v1, v2) := pairs[i];
      selectedComparison := Some((v1, v2));
      version1, version2 := Some(v1), Some(v2);
      PairsDrawnFromVersions(CurrentVersions());
      AscendingPairsOrdered(CurrentVersions());
      assert pairs[i] in pairs;
    }

    /** The "Decision" select box and the "Review Notes" text input. */
    method SetReviewInputs(decision: Decision, notes: string)
      requires Valid()
      modifies this`reviewDecision, this`reviewNotes
      ensures Valid()
      ensures reviewDecision == decision && reviewNotes == notes
    {
      reviewDecision, reviewNotes := decision, notes;
    }

    /** "Save Batch Review": marks the current (batch, type) reviewed, leaving
        every other key as it was, and appends exactly one entry describing
        the current selection and inputs. The button is only shown past the
        "at least 2 versions" check, where both versions are chosen. */
    method SaveReview(now: string)
      requires Valid()
      requires |CurrentVersions()| >= 2
      modifies this`batchStatuses, this`auditTrail
      ensures batchStatuses == old(batchStatuses)[StatusKey(batch, docType) := Reviewed]
      ensures GetBatchStatus(batch, docType) == Reviewed
      ensures forall b, t :: StatusKey(b, t) != StatusKey(batch, docType) ==> GetBatchStatus(b, t) == old(GetBatchStatus(b, t))
      ensures forall b, t :: old(GetBatchStatus(b, t)) == Reviewed ==> GetBatchStatus(b, t) == Reviewed
      ensures |auditTrail| == |old(auditTrail)| + 1 && auditTrail[..|old(auditTrail)|] == old(auditTrail)
      ensures auditTrail[|auditTrail| - 1] ==
        ReviewEntry(now, batch, docType.Name(), IntToString(version1.value) + "-" + IntToString(version2.value),
                    Reviewed, reviewNotes, reviewDecision.Label())
      ensures Valid()
    {
      var key := StatusKey(batch, docType);
      batchStatuses := batchStatuses[key := Reviewed];
      var entry := ReviewEntry(now, batch, docType.Name(),
                               IntToString(version1.value) + "-" + IntToString(version2.value),
                               Reviewed, reviewNotes, reviewDecision.Label());
      auditTrail := auditTrail + [entry];
    }

    /** "Download Audit": the export of the log under a column order of the
        caller's (the source's set iteration order). */
    method DownloadAudit(cols: seq<string>) returns (csv: string)
      requires AuditExport.IsColumnOrder(cols, EntryRows(auditTrail))
      ensures csv == AuditExport.AuditCsv(EntryRows(auditTrail), cols)
    {
      csv := AuditExport.ExportAuditTrail(EntryRows(auditTrail), cols);
    }
  }

  /** The session's log always has the seven fields of an entry as its
      columns, so the export header lists exactly those. */
  lemma SessionExportColumns(log: seq<ReviewEntry>)
    requires log != []
    ensures forall c :: c in AuditExport.KeyUnion(EntryRows(log)) <==> c in EntryColumns
    ensures AuditExport.IsColumnOrder(EntryColumns, EntryRows(log))
  {
    var rows := EntryRows(log);
    assert rows[0] in rows;
    forall c | c in AuditExport.KeyUnion(rows) ensures c in EntryColumns {
      var e :| e in rows && c in e;
      var i :| 0 <= i < |rows| && rows[i] == e;
      assert e == EntryRow(log[i]);
    }
    forall c | c in EntryColumns ensures c in AuditExport.KeyUnion(rows) {
      assert c in rows[0];
    }
  }

  /** The walk-through of one review, first part: batch B001, type CI with
      versions 1 and 2 (as on the demo table, by DemoVersions) offers the one
      pair (1, 2). */
  method ReviewWalkThrough(records: seq<DocumentRecord>)
    requires records != []
    requires VersionsFor(records, "B001", CI) == [1, 2]
  {
    var session := new Session(records);
    session.ChangeBatch("B001");
    assert session.docType == CI;
    assert session.CurrentVersions() == [1, 2];
    OpenWalkThrough(session);
  }

  /** The comparison opened on B001/CI offers exactly the pair (1, 2). */
  method OpenWalkThrough(session: Session)
    requires session.Valid() && session.batch == "B001" && session.docType == CI
    requires session.CurrentVersions() == [1, 2]
    requires |session.auditTrail| == 0
    modifies session
  {
    var pairs := session.OpenComparison();
    PinnedCases();
    assert pairs == Some([(1, 2)]);
    SaveWalkThrough(session, pairs.value);
  }

  /** Second part: selecting the pair makes versions 1 and 2 the chosen
      ones. */
  method SaveWalkThrough(session: Session, pairs: seq<Pair>)
    requires session.Valid() && session.batch == "B001" && session.docType == CI
    requires session.CurrentVersions() == [1, 2] && pairs == [(1, 2)]
    requires |session.auditTrail| == 0
    modifies session
  {
    PinnedCases();
    session.SelectPair(pairs, 0);
    assert session.version1 == Some(1) && session.version2 == Some(2);
    session.SetReviewInputs(Accept, "ok");
    FinishWalkThrough(session);
  }

  /** Last part: saving with decision Accept marks B001/CI reviewed and
      leaves one entry, for versions "1-2", in the log. */
  method FinishWalkThrough(session: Session)
    requires session.Valid() && session.batch == "B001" && session.docType == CI
    requires session.CurrentVersions() == [1, 2]
    requires session.version1 == Some(1) && session.version2 == Some(2)
    requires session.reviewDecision == Accept
    requires |session.auditTrail| == 0
    modifies session
  {
    session.SaveReview("2024-01-01 09:05:00");
    assert session.GetBatchStatus("B001", CI) == Reviewed;
    assert |session.auditTrail| == 1 && session.auditTrail[0].decision == "Accept";
    assert IntToString(1) == "1" && IntToString(2) == "2";
    assert session.auditTrail[0].v1v2 == "1-2";
  }
}
