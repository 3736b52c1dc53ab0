# Document review panel: version pairing and review bookkeeping

A model, in Dafny, of the logic of a small Streamlit tool for reviewing
scanned documents. A reviewer picks a batch and a document type (`CI` or
`PL`), compares two PDF versions side by side, records a decision, and
downloads the audit trail as CSV. The tool's own logic is:

- **Comparison pairs** (`comparison_pairs.dfy`, `ComparisonPairs`). Given an
  ordered version list, the tool offers every adjacent pair in order. When
  there are more than two versions it also offers the first against the
  last. Fewer than two versions give no pair.
- **Status tags** (`status_format.dfy`, `StatusFormat`). These are two HTML
  snippets. The portal-status tag, with its optional tooltip, is shown next
  to each compared version (src/app.py:196, 205). The review-status tag is
  defined and tested, but the page never calls it. Likewise
  `get_batch_status` is defined but never called, so the page does not
  display review statuses.
- **Document table** (`metadata.dfy`, `Metadata`). `load_data` expands each
  batch-metadata row into one record per type, `CI` first and then `PL`.
  The record's storage key is `{type}/{batch}/{batch}_{count}.pdf`. When
  there is no metadata file, the loader uses a six-row demo table instead.
- **Audit export** (`audit_export.dfy`, `AuditExport`). The audit log
  becomes a header naming every field any entry uses, then one row per
  entry, with an empty field where an entry lacks a column. The table is
  written in the comma-separated form of Python's `csv` module: fields are
  quoted when needed and lines end in `\r\n`. A reader is defined for that
  form, and it gets back every table the writer produces.
- **Review session** (`review.dfy`, `Review.Session`). This is the state
  Streamlit keeps across reruns:
  - the status of each `batch/type` key and the audit trail;
  - the selected batch and type;
  - the two chosen versions and the selected comparison;
  - the decision and notes inputs.

  Its methods are the handlers that change that state: the version
  defaulting of `update_document_options`, the batch and type callbacks,
  the comparison panel with its "at least two versions" guard, the pair
  buttons, "Save Batch Review" and "Download Audit". A review key only
  ever moves from "not-reviewed" to "reviewed", and the audit trail only
  grows at its end.

`text.dfy` (`Text`) holds Python's `str(int)` as the f-strings use it, with a
parser that inverts it, and a substring predicate. `wrappers.dfy` holds the
`Option` type.

The demo table has two rows per batch, with counts 1
and 2, so it gives twelve records, and every batch and type of it offers
versions 1 and 2.

Four methods of `Review` (`ReviewWalkThrough`, `OpenWalkThrough`,
`SaveWalkThrough` and `FinishWalkThrough`) replay one review of B001/CI with
versions [1, 2]. They open the comparison, select the pair and save. The
result is one "Accept" entry with versions "1-2".

Inputs the program reads from outside are parameters of the model:

- the clock, as `now` strings;
- the metadata file, as `Option<seq<SourceRow>>`, with None when the file
  is absent;
- the column order of the export, as a sequence `cols`. The source takes it
  from a set's iteration order, so the model accepts any duplicate-free
  listing of the field names (`IsColumnOrder`).

## Model

| member | source | states |
|---|---|---|
| ComparisonPairs.GenerateComparisonPairs | src/utils.py:142-149 | fewer than two versions give `[]`; two versions give one pair and n > 2 versions give n pairs; pair i is `(versions[i], versions[i+1])` for i < n-1; for n > 2 the last pair is `(versions[0], versions[n-1])` |
| ComparisonPairs.PairMembership | src/utils.py:146-148 | a pair is offered if and only if it is an adjacent pair of the input, or the first-against-last pair of more than two versions |
| ComparisonPairs.PairsDrawnFromVersions | src/utils.py:146-148 | both sides of every offered pair are versions from the input |
| ComparisonPairs.AscendingPairsOrdered | src/utils.py:146-148 | on a strictly ascending version list every pair has left < right, so no `(v, v)` pair occurs |
| ComparisonPairs.AscendingPairsDistinct | src/utils.py:146-148 | on a strictly ascending version list no pair is offered twice |
| ComparisonPairs.PinnedCases | tests/test_utils.py:32-48 | the test cases `[]`, `[1]`, `[1,2]` and `[1,2,3]`, stated as exact outputs, and `[1,2,3,4]` |
| StatusFormat.FormatStatusTag | src/utils.py:65-69 | the status "reviewed" gives a tag containing `status-reviewed` and `Reviewed`; any other status gives one containing `status-not-reviewed` and `Not Reviewed` |
| StatusFormat.StatusTagDistinguishes | src/utils.py:67-69 | the tag equals the "reviewed" tag if and only if the status is "reviewed"; every other status renders exactly like "not-reviewed" |
| StatusFormat.FormatPortalStatus | src/utils.py:71-74 | the snippet contains `portal-status` and the status; with a non-empty reason it contains ` title='<reason>'` |
| StatusFormat.PortalStatusWithoutReason | src/utils.py:73-74 | with an empty reason the snippet is exactly the status inside the `portal-status` span, with no title attribute |
| Text.NatToStringDigits | src/utils.py:49 | decimal notation is a non-empty run of digits with no leading zero, and it reads back as the number |
| Text.IntToStringRoundTrip | src/utils.py:49 | parsing the text `str(i)` gives back `i`, negative numbers included |
| Text.IntToStringInjective | src/utils.py:55 | different integers are written differently |
| Metadata.ExpandedLength | src/utils.py:41-61 | k source rows give exactly 2k records |
| Metadata.ExpandedAt | src/utils.py:42-59 | row j gives record 2j of type CI and record 2j+1 of type PL, each built from that row |
| Metadata.ExpandedAppend | src/utils.py:42-59 | one more source row appends exactly that row's two records, after the earlier ones |
| Metadata.ExpandRows | src/utils.py:41-61 | the nested loop returns the document table of the rows, two records per row |
| Metadata.LoadData | src/utils.py:29-61 | with a metadata file the table is its expansion; without one it is the expansion of the demo rows |
| Metadata.RecordPathLayout | src/utils.py:49-55 | every record's path is `type/batch/filename` and its file name is `batch_count.pdf` |
| Metadata.StorageKeyInjective | src/utils.py:49 | two counts of one batch and type never share a storage key |
| Metadata.VersionSetExpanded | src/utils.py:42-59 | both types of a batch carry exactly the counts of that batch's source rows |
| Metadata.DemoTable | src/utils.py:33-39 | the demo table gives twelve records, and versions {1, 2} for each type of batches B001, B002 and B003 |
| AuditExport.AuditCsv | src/utils.py:153-154 | the export is empty exactly when the log is empty |
| AuditExport.ExportAuditTrail | src/utils.py:151-164 | the writer loop returns the header line followed by one line per entry, in log order, or `""` for an empty log |
| AuditExport.EncodeTableAppend | src/utils.py:163-164 | writing one more row appends exactly that row's line to the text |
| AuditExport.FieldRoundTrip | src/utils.py:161-164 | a written field followed by a comma, a line end or nothing reads back as itself, whatever characters it holds |
| AuditExport.FieldsRoundTrip | src/utils.py:161-164 | fields joined by commas read back as the same fields |
| AuditExport.RecordRoundTrip | src/utils.py:161-164 | a written record and its terminator read back as that record, including the record with no field and the one with a single empty field |
| AuditExport.TableRoundTrip | src/utils.py:161-164 | every written table reads back unchanged |
| AuditExport.ExportShape | src/utils.py:156-164 | the export reads back as 1 + \|log\| rows; the header is the column list, and a name is in it if and only if some entry uses it; each row has one field per column, holding the entry's value or `""` when the entry lacks that column |
| AuditExport.NoDataLoss | src/utils.py:156-164 | every value of every entry is found in the text read back, in that entry's row under that field's column |
| Review.MatchingVersions | src/app.py:66-67 | its elements are exactly the versions of the records of that batch and type |
| Review.InsertSorted | src/app.py:68 | inserting into a strictly ascending list keeps it strictly ascending and adds exactly that value |
| Review.SortedDistinct | src/app.py:68 | the result is strictly ascending and holds exactly the input's values |
| Review.VersionsFor | src/app.py:66-68 | the version list is strictly ascending and holds exactly the versions present for the batch and type |
| Review.AscendingUnique | src/app.py:68 | two strictly ascending lists with the same elements are equal, so the version list is determined by the version set |
| Review.DemoVersions | src/app.py:66-68 | on the demo table every type of B001, B002 and B003 offers the versions `[1, 2]` |
| Review.FirstBatch | src/app.py:89-91 | the default batch is a batch of the table, and no batch comes before it in string order |
| Review.StrLeTotal | src/app.py:89 | any two strings are ordered one way or the other |
| Review.StrLeTransitive | src/app.py:89 | string order is transitive |
| Review.Session.GetBatchStatus | src/app.py:76-79 | an absent key gives "not-reviewed"; while only "reviewed" is ever stored, the result is "reviewed" if and only if the key was saved |
| Review.Session.constructor | src/app.py:42-53 | the first run starts with no statuses, an empty log, empty notes, decision Accept, the first batch, type CI, and then versions chosen by `update_document_options` |
| Review.Session.UpdateDocumentOptions | src/app.py:64-74 | with versions present, a chosen version still in the list is kept; otherwise version 1 becomes the first version and version 2 the second (the first when there is only one). An empty list changes nothing. Afterwards both chosen versions are in the list |
| Review.Session.ChangeBatch | src/app.py:56-58 | the new batch is selected and its versions are chosen as `update_document_options` does |
| Review.Session.ChangeDocType | src/app.py:60-62 | the new type is selected and its versions are chosen as `update_document_options` does |
| Review.Session.OpenComparison | src/app.py:132-142 | fewer than two versions stop the panel with nothing offered and the selection untouched; otherwise the pairs of the version list are offered, and the first visit selects `(versions[0], versions[1])` |
| Review.Session.SelectPair | src/app.py:147-155 | pressing pair i selects it and makes its two versions the chosen ones, left < right, and both remain in the version list |
| Review.Session.SetReviewInputs | src/app.py:166-170 | the decision and notes become the values entered |
| Review.Session.SaveReview | src/app.py:172-184 | the current key becomes "reviewed"; every other key's status is unchanged; no status goes back from "reviewed"; exactly one entry is appended and earlier entries are unchanged; the new entry carries the time, batch, type, `v1-v2`, "reviewed", the notes and the decision |
| Review.Session.DownloadAudit | src/app.py:115-121 | the download is the export of the audit trail as it stands at the call (see "## Left out" for the source's rerun timing) |
| Review.SessionExportColumns | src/app.py:175-183 | a non-empty audit trail has exactly the seven entry fields as its columns, so they, in any order, are a valid column list for the export |

## Left out

- S3 access is left out because it is I/O with no logic of its own. This
  covers the connectivity probe in `load_data` (src/utils.py:18-27), whose
  `use_s3` flag is never read, and the temporary-file write and upload in
  `export_audit_trail` (src/utils.py:166-179). src/s3_utils.py is not part
  of this model.
- `embed_pdf_base64` (src/utils.py:76-140) is left out: it is a network
  fetch, a file read and base64 encoding that produce HTML.
- The PDF display (src/app.py:187-208) is left out because it is rendering
  only. It looks up the portal status and reason of each selected version
  and passes them to `format_portal_status`, which is modelled.
- Streamlit layout and widgets are reduced to the state changes they
  trigger, and `st.stop()` to the None result of
  `Review.Session.OpenComparison`. The selection widgets are modelled by
  `ChangeBatch`, `ChangeDocType`, `SetReviewInputs` and `SelectPair`.
- The clock is an input string. Metadata.LoadData: the source reads the
  clock once per record, so records of one load may differ in timestamp.
  The model gives all records of one load the same `now`.
- pandas behaviour beyond filtering, uniqueness and sorting is left out:
  missing values (NaN) in the metadata file, type coercion of
  `batch_count`, and the read errors that `load_data` re-raises. A missing
  `portal_status` or `reason` column is modelled as None and gets the
  source's defaults "Unknown" and "".
- Review.Session.DownloadAudit: the source builds the download file when
  the button is drawn (src/app.py:115-121). That happens before the
  "Save Batch Review" handler of the same rerun appends its entry
  (src/app.py:172-184). So just after a save, the file lacks the newest
  entry until the next rerun. After the first save, no button appears until
  then. The model exports the trail as it is at the time of the call.
- Review.Session: the document table is loaded once for the session and
  kept as a constant. Streamlit reruns the whole script on every
  interaction, reloading the table (src/app.py:83) and re-running
  `update_document_options` (src/app.py:95); that per-rerun reload and
  re-sync are not modelled.
- Review.Session.constructor: requires a non-empty document table. On an
  empty table the source fails with a missing-column error before any
  session state matters.
- Review.Session.SaveReview: requires at least two current versions, both
  chosen. The "Save Batch Review" button is only reached past the
  "at least 2 versions" stop (src/app.py:136-138).
- Review.Session.ChangeBatch: accepts any batch name. The source's select
  box offers only batches of the table.
- StatusFormat.FormatPortalStatus: the absence of a title attribute for an
  empty reason is stated as the exact text of the snippet
  (`PortalStatusWithoutReason`), not as a "does not contain" property. Such
  a property would also depend on the status text.
- AuditExport: only the quoting rules of Python's `csv` "excel" dialect are
  modelled that decide whether a table survives the round trip. A field is
  quoted when it holds a comma, a quote, a carriage return or a line feed,
  and inside it quotes are doubled. A record of one empty field is written
  `""`, and every line ends in `\r\n`. Other dialect options are not
  modelled.
- The selected comparison is kept across batch and type changes
  (`OpenComparison` only sets it on the first visit), as the source does.
  The display code then handles a selection that is not in the current
  version list; that display is not part of this model.
- src/styles.py (a CSS constant), scripts/create_demo_pdfs.py (image
  drawing), scripts/upload_to_s3.py (file globbing and uploads) and
  my_flow.py (an unrelated workflow demo) are not part of this model.
