/** The in-memory part of `export_audit_trail` in src/utils.py: the audit log
    laid out as a table whose header is every field name any entry uses, then
    written in the comma-separated form of Python's `csv` "excel" dialect,
    together with a reader for that form that gets every table back. */
module AuditExport {
  import opened Wrappers

  /** One audit entry as the exporter sees it: field name to value. */
  type Entry = map<string, string>

  /** Every field name used by some entry of the log. */
  function KeyUnion(log: seq<Entry>): set<string> {
    set e, k | e in log && k in e :: k
  }

  predicate Distinct(cols: seq<string>) {
    forall i, j :: 0 <= i < j < |cols| ==> cols[i] != cols[j]
  }

  /** `cols` lists the field names of the log, each once; the source takes
      them in the iteration order of a set, so the model accepts any such
      order. */
  predicate IsColumnOrder(cols: seq<string>, log: seq<Entry>) {
    && Distinct(cols)
    && (forall c | c in cols :: c in KeyUnion(log))
    && (forall c | c in KeyUnion(log) :: c in cols)
  }

  /** The value written for one column of one entry: empty when the entry
      has no such field. */
  function Cell(e: Entry, col: string): string {
    if col in e then e[col] else ""
  }

  function EntryFields(e: Entry, cols: seq<string>): seq<string> {
    seq(|cols|, i requires 0 <= i < |cols| => Cell(e, cols[i]))
  }

  /** The header row and then one row per entry, in log order. */
  function Table(log: seq<Entry>, cols: seq<string>): seq<seq<string>> {
    [cols] + seq(|log|, i requires 0 <= i < |log| => EntryFields(log[i], cols))
  }

  // ---------------------------------------------------------------------
  // Writing (the "excel" dialect: ',' between fields, "\r\n" after every
  // record, a field quoted when it holds one of , " \r \n, and a quote
  // inside a quoted field doubled)
  // ---------------------------------------------------------------------

  predicate Special(c: char) {
    c == ',' || c == '"' || c == '\r' || c == '\n'
  }

  predicate NeedsQuotes(f: string) {
    exists i | 0 <= i < |f| :: Special(f[i])
  }

  /** The field with every quote character doubled. */
  function Escape(f: string): string {
    if f == [] then []
    else (if f[0] == '"' then "\"\"" else [f[0]]) + Escape(f[1..])
  }

  function EncodeField(f: string): string {
    if NeedsQuotes(f) then "\"" + Escape(f) + "\"" else f
  }

  /** The encoded fields separated by commas. */
  function JoinFields(fs: seq<string>): string
    requires fs != []
  {
    if |fs| == 1 then EncodeField(fs[0])
    else EncodeField(fs[0]) + "," + JoinFields(fs[1..])
  }

  /** One record without its terminator. A record that is one empty field is
      written as `""`, so that it reads back differently from a record with no
      field at all, which is an empty line. */
  function EncodeRecord(fs: seq<string>): string {
    if fs == [] then ""
    else if fs == [""] then "\"\""
    else JoinFields(fs)
  }

  /** What `writerow` writes: the record and its terminator. */
  function EncodeLine(fs: seq<string>): string {
    EncodeRecord(fs) + "\r\n"
  }

  function EncodeTable(rows: seq<seq<string>>): string {
    if rows == [] then ""
    else EncodeLine(rows[0]) + EncodeTable(rows[1..])
  }

  /** The text `export_audit_trail` returns: nothing for an empty log,
      otherwise the header and one line per entry. */
  function AuditCsv(log: seq<Entry>, cols: seq<string>): (csv: string)
    ensures log == [] <==> csv == []
  {
    if log == [] then "" else EncodeTable(Table(log, cols))
  }

  lemma {:induction false} EncodeTableAppend(rows: seq<seq<string>>, row: seq<string>)
    ensures EncodeTable(rows + [row]) == EncodeTable(rows) + EncodeLine(row)
    decreases |rows|
  {
    var line := EncodeLine(row);
    if rows == [] {
      assert [row][1..] == [];
      assert EncodeTable([row]) == line + "";
      assert line + "" == "" + line;
    } else {
      var grown := rows + [row];
      assert grown[0] == rows[0] && grown[1..] == rows[1..] + [row];
      EncodeTableAppend(rows[1..], row);
      var first := EncodeLine(rows[0]);
      var tail := EncodeTable(rows[1..]);
      assert EncodeTable(grown) == first + (tail + line);
      assert EncodeTable(rows) == first + tail;
      ConcatAssoc3(first, tail, line);
    }
  }

  lemma ConcatAssoc3(a: string, b: string, c: string)
    ensures a + (b + c) == a + b + c
  {
  }

  /** The table of a log grown by one entry is the old table and that
      entry's row. */
  lemma TableSnoc(log: seq<Entry>, cols: seq<string>, i: nat)
    requires i < |log|
    ensures Table(log[..i + 1], cols) == Table(log[..i], cols) + [EntryFields(log[i], cols)]
  {
    var a := Table(log[..i + 1], cols);
    var b := Table(log[..i], cols) + [EntryFields(log[i], cols)];
    assert |a| == |b|;
    forall k | 0 <= k < |a| ensures a[k] == b[k] {
      if 0 < k {
        assert log[..i + 1][k - 1] == log[k - 1];
        if k <= i {
          assert log[..i][k - 1] == log[k - 1];
        }
      }
    }
  }

  /** The export as the source writes it: the header through the CSV writer,
      then each entry's row, into one growing buffer. */
  method ExportAuditTrail(log: seq<Entry>, cols: seq<string>) returns (csv: string)
    requires IsColumnOrder(cols, log)
    ensures csv == AuditCsv(log, cols)
  {
    if log == [] {
      return "";
    }
    csv := EncodeLine(cols);
    assert Table(log[..0], cols) == [cols];
    assert csv == EncodeTable([cols]);
    for i := 0 to |log|
      invariant csv == EncodeTable(Table(log[..i], cols))
    {
      var fields := EntryFields(log[i], cols);
      TableSnoc(log, cols, i);
      EncodeTableAppend(Table(log[..i], cols), fields);
      csv := csv + EncodeLine(fields);
    }
    assert log[..|log|] == log;
  }

  // ---------------------------------------------------------------------
  // Reading
  // ---------------------------------------------------------------------

  /** The rest of a quoted field after its opening quote: the text up to the
      closing quote (a doubled quote standing for one quote character) and
      the input after the closing quote. */
  function DecodeQuoted(s: string): (r: Option<(string, string)>)
    ensures r.Some? ==> |r.value.1| < |s|
    decreases |s|
  {
    if s == [] then None
    else if s[0] == '"' then
      if |s| > 1 && s[1] == '"' then
        match DecodeQuoted(s[2..])
        case None => None
        case Some((f, rest)) => Some(("\"" + f, rest))
      else Some(([], s[1..]))
    else
      match DecodeQuoted(s[1..])
      case None => None
      case Some((f, rest)) => Some(([s[0]] + f, rest))
  }

  /** An unquoted field: the text up to the next comma or carriage return. */
  function DecodeUnquoted(s: string): (r: (string, string))
    ensures |r.1| <= |s|
    decreases |s|
  {
    if s == [] || s[0] == ',' || s[0] == '\r' then ([], s)
    else
      var (f, rest) := DecodeUnquoted(s[1..]);
      ([s[0]] + f, rest)
  }

  function DecodeField(s: string): (r: Option<(string, string)>)
    ensures r.Some? ==> |r.value.1| <= |s|
  {
    if |s| > 0 && s[0] == '"' then DecodeQuoted(s[1..]) else Some(DecodeUnquoted(s))
  }

  /** One or more fields separated by commas; stops before anything else. */
  function DecodeFields(s: string): (r: Option<(seq<string>, string)>)
    ensures r.Some? ==> r.value.0 != [] && |r.value.1| <= |s|
    decreases |s|
  {
    match DecodeField(s)
    case None => None
    case Some((f, rest)) =>
      if |rest| > 0 && rest[0] == ',' then
        match DecodeFields(rest[1..])
        case None => None
        case Some((fs, rest')) => Some(([f] + fs, rest'))
      else Some(([f], rest))
  }

  /** One record and its "\r\n" terminator; an empty line is the record
      with no field. */
  function DecodeRecord(s: string): (r: Option<(seq<string>, string)>)
    ensures r.Some? ==> |r.value.1| < |s|
  {
    if |s| >= 2 && s[..2] == "\r\n" then Some(([], s[2..]))
    else
      match DecodeFields(s)
      case None => None
      case Some((fs, rest)) =>
        if |rest| >= 2 && rest[..2] == "\r\n" then Some((fs, rest[2..])) else None
  }

  function DecodeTable(s: string): Option<seq<seq<string>>>
    decreases |s|
  {
    if s == [] then Some([])
    else
      match DecodeRecord(s)
      case None => None
      case Some((row, rest)) =>
        match DecodeTable(rest)
        case None => None
        case Some(rows) => Some([row] + rows)
  }

  // ---------------------------------------------------------------------
  // Reading back what was written
  // ---------------------------------------------------------------------

  lemma {:induction false} QuotedRoundTrip(f: string, rest: string)
    requires rest == [] || rest[0] != '"'
    ensures DecodeQuoted(Escape(f) + "\"" + rest) == Some((f, rest))
    decreases |f|
  {
    var s := Escape(f) + "\"" + rest;
    if f == [] {
      assert s == "\"" + rest;
    } else if f[0] == '"' {
      assert s == "\"\"" + (Escape(f[1..]) + "\"" + rest);
      assert s[2..] == Escape(f[1..]) + "\"" + rest;
      QuotedRoundTrip(f[1..], rest);
      assert "\"" + f[1..] == f;
    } else {
      assert s == [f[0]] + (Escape(f[1..]) + "\"" + rest);
      assert s[1..] == Escape(f[1..]) + "\"" + rest;
      QuotedRoundTrip(f[1..], rest);
      assert [f[0]] + f[1..] == f;
    }
  }

  lemma {:induction false} UnquotedRoundTrip(f: string, rest: string)
    requires !NeedsQuotes(f)
    requires rest == [] || rest[0] == ',' || rest[0] == '\r'
    ensures DecodeUnquoted(f + rest) == (f, rest)
    decreases |f|
  {
    if f == [] {
      assert f + rest == rest;
    } else {
      assert !Special(f[0]);
      assert !NeedsQuotes(f[1..]) by {
        forall i | 0 <= i < |f[1..]| ensures !Special(f[1..][i]) {
          assert f[1..][i] == f[i + 1];
        }
      }
      assert (f + rest)[1..] == f[1..] + rest;
      UnquotedRoundTrip(f[1..], rest);
      assert [f[0]] + f[1..] == f;
    }
  }

  lemma QuotedFieldRoundTrip(f: string, rest: string)
    requires NeedsQuotes(f)
    requires rest == [] || rest[0] == ',' || rest[0] == '\r'
    ensures DecodeField(EncodeField(f) + rest) == Some((f, rest))
  {
    var body := Escape(f) + "\"" + rest;
    var s := "\"" + body;
    assert EncodeField(f) + rest == s;
    assert s[0] == '"' && s[1..] == body;
    QuotedRoundTrip(f, rest);
    assert DecodeField(s) == DecodeQuoted(body);
  }

  lemma PlainFieldRoundTrip(f: string, rest: string)
    requires !NeedsQuotes(f)
    requires rest == [] || rest[0] == ',' || rest[0] == '\r'
    ensures DecodeField(EncodeField(f) + rest) == Some((f, rest))
  {
    assert EncodeField(f) == f;
    var s := f + rest;
    if f != [] {
      assert !Special(f[0]);
      assert s[0] == f[0];
    } else {
      assert s == rest;
    }
    assert DecodeField(s) == Some(DecodeUnquoted(s));
    UnquotedRoundTrip(f, rest);
  }

  /** A field followed by a comma, a line end or nothing reads back as
      itself, with the same text left over. */
  lemma FieldRoundTrip(f: string, rest: string)
    requires rest == [] || rest[0] == ',' || rest[0] == '\r'
    ensures DecodeField(EncodeField(f) + rest) == Some((f, rest))
  {
    if NeedsQuotes(f) {
      QuotedFieldRoundTrip(f, rest);
    } else {
      PlainFieldRoundTrip(f, rest);
    }
  }

  lemma DecodeFieldsLast(s: string, f: string, rest: string)
    requires DecodeField(s) == Some((f, rest))
    requires rest == [] || rest[0] != ','
    ensures DecodeFields(s) == Some(([f], rest))
  {
  }

  lemma DecodeFieldsNext(s: string, f: string, tail: string, fs: seq<string>, rest: string)
    requires DecodeField(s) == Some((f, tail))
    requires |tail| > 0 && tail[0] == ','
    requires DecodeFields(tail[1..]) == Some((fs, rest))
    ensures DecodeFields(s) == Some(([f] + fs, rest))
  {
  }

  lemma LastFieldRoundTrip(f: string, rest: string)
    requires rest == [] || rest[0] == '\r'
    ensures DecodeFields(JoinFields([f]) + rest) == Some(([f], rest))
  {
    FieldRoundTrip(f, rest);
    DecodeFieldsLast(JoinFields([f]) + rest, f, rest);
  }

  lemma JoinFieldsCons(fs: seq<string>)
    requires |fs| > 1
    ensures JoinFields(fs) == EncodeField(fs[0]) + "," + JoinFields(fs[1..])
  {
  }

  lemma ConcatAssoc(a: string, b: string, c: string, d: string)
    ensures a + b + c + d == a + (b + c + d)
  {
  }

  lemma MoreFieldsStep(f: string, joined: string, fs: seq<string>, rest: string)
    requires rest == [] || rest[0] == '\r'
    requires DecodeFields(joined + rest) == Some((fs, rest))
    ensures DecodeFields(EncodeField(f) + "," + joined + rest) == Some(([f] + fs, rest))
  {
    var tail := "," + joined + rest;
    ConcatAssoc(EncodeField(f), ",", joined, rest);
    FieldRoundTrip(f, tail);
    assert tail[1..] == joined + rest;
    DecodeFieldsNext(EncodeField(f) + tail, f, tail, fs, rest);
  }

  lemma MoreFieldsRoundTrip(fs: seq<string>, rest: string)
    requires |fs| > 1
    requires rest == [] || rest[0] == '\r'
    requires DecodeFields(JoinFields(fs[1..]) + rest) == Some((fs[1..], rest))
    ensures DecodeFields(JoinFields(fs) + rest) == Some((fs, rest))
  {
    JoinFieldsCons(fs);
    MoreFieldsStep(fs[0], JoinFields(fs[1..]), fs[1..], rest);
    assert [fs[0]] + fs[1..] == fs;
  }

  /** Fields joined by commas and followed by a line end or nothing read
      back as the same fields. */
  lemma {:induction false} FieldsRoundTrip(fs: seq<string>, rest: string)
    requires fs != []
    requires rest == [] || rest[0] == '\r'
    ensures DecodeFields(JoinFields(fs) + rest) == Some((fs, rest))
    decreases |fs|
  {
    if |fs| == 1 {
      LastFieldRoundTrip(fs[0], rest);
      assert [fs[0]] == fs;
    } else {
      FieldsRoundTrip(fs[1..], rest);
      MoreFieldsRoundTrip(fs, rest);
    }
  }

  /** The text of a record with some field does not start a line end. */
  lemma JoinFieldsStart(fs: seq<string>)
    requires fs != [] && fs != [""]
    ensures |JoinFields(fs)| > 0 && JoinFields(fs)[0] != '\r'
  {
    if fs[0] == [] {
      assert |fs| > 1;
      assert JoinFields(fs) == "," + JoinFields(fs[1..]);
    } else if NeedsQuotes(fs[0]) {
      assert EncodeField(fs[0])[0] == '"';
    } else {
      assert !Special(fs[0][0]);
      assert EncodeField(fs[0])[0] == fs[0][0];
    }
  }

  lemma OneEmptyFieldRoundTrip(rest: string)
    ensures DecodeRecord(EncodeRecord([""]) + "\r\n" + rest) == Some(([""], rest))
  {
    var line := "\r\n" + rest;
    var q := "\"" + line;
    var s := EncodeRecord([""]) + "\r\n" + rest;
    assert s == "\"" + q;
    assert s[1..] == q;
    assert q[0] == '"' && q[1] == '\r' && q[1..] == line;
    assert DecodeQuoted(q) == Some(([], line));
    assert DecodeField(s) == Some(("", line));
    assert DecodeFields(s) == Some(([""], line));
    assert line[..2] == "\r\n" && line[2..] == rest;
  }

  /** A record and its terminator read back as that record, with the same
      text left over. */
  lemma RecordRoundTrip(fs: seq<string>, rest: string)
    ensures DecodeRecord(EncodeRecord(fs) + "\r\n" + rest) == Some((fs, rest))
  {
    var s := EncodeRecord(fs) + "\r\n" + rest;
    if fs == [] {
      assert s == "\r\n" + rest;
    } else if fs == [""] {
      OneEmptyFieldRoundTrip(rest);
    } else {
      var line := "\r\n" + rest;
      assert s == JoinFields(fs) + line;
      FieldsRoundTrip(fs, line);
      JoinFieldsStart(fs);
      assert s[0] == JoinFields(fs)[0];
      assert line[..2] == "\r\n" && line[2..] == rest;
    }
  }

  /** Every table written by EncodeTable reads back unchanged, whatever its
      fields contain. */
  lemma {:induction false} TableRoundTrip(rows: seq<seq<string>>)
    ensures DecodeTable(EncodeTable(rows)) == Some(rows)
    decreases |rows|
  {
    if rows != [] {
      var rest := EncodeTable(rows[1..]);
      RecordRoundTrip(rows[0], rest);
      TableRoundTrip(rows[1..]);
      assert [rows[0]] + rows[1..] == rows;
    }
  }

  // ---------------------------------------------------------------------
  // What the export promises
  // ---------------------------------------------------------------------

  /** A non-empty log gives a header naming each field of the log once, then
      one row per entry with one field per column, empty where the entry lacks
      the column; reading the text back gives exactly that table. */
  lemma ExportShape(log: seq<Entry>, cols: seq<string>)
    requires IsColumnOrder(cols, log)
    requires log != []
    ensures DecodeTable(AuditCsv(log, cols)) == Some(Table(log, cols))
    ensures |Table(log, cols)| == 1 + |log| && Table(log, cols)[0] == cols
    ensures forall c :: c in Table(log, cols)[0] <==> exists e | e in log :: c in e
    ensures forall i, j :: 0 <= i < |log| && 0 <= j < |cols| ==>
      |Table(log, cols)[1 + i]| == |cols| &&
      Table(log, cols)[1 + i][j] == (if cols[j] in log[i] then log[i][cols[j]] else "")
  {
    TableRoundTrip(Table(log, cols));
    forall c ensures c in cols <==> exists e | e in log :: c in e {
      if c in cols {
        assert c in KeyUnion(log);
      }
    }
  }

  /** Row `1 + i` of a decoded table holds `v` in column `j`. */
  predicate HoldsAt(rows: seq<seq<string>>, i: nat, j: nat, v: string) {
    1 + i < |rows| && j < |rows[1 + i]| && rows[1 + i][j] == v
  }

  /** Nothing is lost: every value of every entry is found again in the text
      read back, in that entry's row under that field's column. */
  lemma NoDataLoss(log: seq<Entry>, cols: seq<string>, i: nat, key: string)
    requires IsColumnOrder(cols, log)
    requires i < |log| && key in log[i]
    ensures DecodeTable(AuditCsv(log, cols)).Some?
    ensures exists j | 0 <= j < |cols| :: cols[j] == key && HoldsAt(DecodeTable(AuditCsv(log, cols)).value, i, j, log[i][key])
  {
    ExportShape(log, cols);
    assert key in KeyUnion(log);
    var j :| 0 <= j < |cols| && cols[j] == key;
    assert Table(log, cols)[1 + i][j] == log[i][key];
    assert HoldsAt(Table(log, cols), i, j, log[i][key]);
  }
}
