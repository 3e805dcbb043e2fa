/** CSV export of audit entries, a header and a row of eight fields for each (server-rs/src/audit.rs), read back by an
    independent reader: a state machine over characters for the quoting rules of section 2 of RFC 4180, with line feed
    as the line break. What the reader makes of an export determines every field of every entry. */
module Csv {
  import opened Util
  import opened Text

  datatype AuditEntry = AuditEntry(
    id: int,
    createdAt: string,
    userId: Option<string>,
    userEmail: Option<string>,
    action: string,
    resourceType: string,
    resourceId: Option<string>,
    diff: Option<string>)

  // ---------------------------------------------------------------- the writer

  /** The header line, written column by column. */
  const HEADER: string :=
    "id" + "," + "timestamp" + "," + "user_id" + "," + "user_email" + "," + "action" + "," + "resource_type" + ","
    + "resource_id" + "," + "diff" + "\n"

  predicate NeedsQuotes(s: string) {
    ',' in s || '"' in s || '\n' in s
  }

  /** `csv_escape`. */
  function CsvEscape(s: string): string {
    if NeedsQuotes(s) then "\"" + Replace(s, '"', "\"\"") + "\"" else s
  }

  function OrEmpty(s: Option<string>): string {
    match s case Some(v) => v case None => ""
  }

  /** The format string applied to one entry; the numeric id is not escaped. */
  function EntryText(e: AuditEntry): string {
    IntText(e.id) + "," + CsvEscape(e.createdAt) + "," + CsvEscape(OrEmpty(e.userId)) + ","
    + CsvEscape(OrEmpty(e.userEmail)) + "," + CsvEscape(e.action) + "," + CsvEscape(e.resourceType) + ","
    + CsvEscape(OrEmpty(e.resourceId)) + "," + CsvEscape(OrEmpty(e.diff)) + "\n"
  }

  // ---------------------------------------------------------------- an independent reader

  /** Position of the reader inside a record: before a field, in an unquoted field, inside quotes, or just behind a
      quote that either closes the field or starts an escaped quote. */
  datatype Mode = FieldStart | Bare | Quoted | QuoteSeen

  /** Reader for LF-terminated records under the quoting rules of section 2 of RFC 4180. */
  datatype Reader =
    | Reader(records: seq<seq<string>>, row: seq<string>, field: string, mode: Mode)
    | Malformed

  const Fresh := Reader([], [], "", FieldStart)

  function EndField(r: Reader): Reader
    requires r.Reader?
  {
    Reader(r.records, r.row + [r.field], "", FieldStart)
  }

  function EndRecord(r: Reader): Reader
    requires r.Reader?
  {
    Reader(r.records + [r.row + [r.field]], [], "", FieldStart)
  }

  function Feed(r: Reader, c: char): Reader {
    match r
    case Malformed => Malformed
    case Reader(records, row, field, mode) =>
      match mode
      case Quoted =>
        if c == '"' then r.(mode := QuoteSeen) else r.(field := field + [c])
      case QuoteSeen =>
        if c == '"' then r.(field := field + [c], mode := Quoted)
        else if c == ',' then EndField(r)
        else if c == '\n' then EndRecord(r)
        else Malformed
      case _ =>
        if c == ',' then EndField(r)
        else if c == '\n' then EndRecord(r)
        else if c == '"' then (if mode == FieldStart then r.(mode := Quoted) else Malformed)
        else r.(field := field + [c], mode := Bare)
  }

  function Run(r: Reader, s: string): Reader
    decreases s
  {
    if s == "" then r else Run(Feed(r, s[0]), s[1..])
  }

  /** The records of a text whose last record is terminated. */
  function Parse(s: string): Option<seq<seq<string>>> {
    var r := Run(Fresh, s);
    if r.Reader? && r.mode == FieldStart && r.row == [] then Some(r.records) else None
  }

  // ---------------------------------------------------------------- what is to be recovered

  const Columns: seq<string> :=
    ["id", "timestamp", "user_id", "user_email", "action", "resource_type", "resource_id", "diff"]

  function Fields(e: AuditEntry): seq<string> {
    [IntText(e.id), e.createdAt, OrEmpty(e.userId), OrEmpty(e.userEmail), e.action, e.resourceType,
     OrEmpty(e.resourceId), OrEmpty(e.diff)]
  }

  function AllFields(entries: seq<AuditEntry>): seq<seq<string>> {
    if entries == [] then [] else AllFields(entries[..|entries| - 1]) + [Fields(entries[|entries| - 1])]
  }

  // ---------------------------------------------------------------- the round trip

  lemma {:induction false} RunConcat(r: Reader, a: string, b: string)
    ensures Run(r, a + b) == Run(Run(r, a), b)
    decreases a
  {
    if a == "" {
      assert a + b == b;
    } else {
      RunConcat(Feed(r, a[0]), a[1..], b);
      assert (a + b)[1..] == a[1..] + b;
    }
  }

  /** Inside quotes, doubled quotes read as one and everything else as itself. */
  lemma {:induction false} RunQuoted(r: Reader, s: string)
    requires r.Reader? && r.mode == Quoted
    ensures Run(r, Replace(s, '"', "\"\"")) == r.(field := r.field + s)
    decreases s
  {
    if s == "" {
      assert r.field + s == r.field;
    } else {
      var head := if s[0] == '"' then "\"\"" else [s[0]];
      var next := r.(field := r.field + [s[0]]);
      RunConcat(r, head, Replace(s[1..], '"', "\"\""));
      if s[0] == '"' {
        RunConcat(r, "\"", "\"");
        assert head == "\"" + "\"";
      }
      RunQuoted(next, s[1..]);
      assert next.field + s[1..] == r.field + s;
    }
  }

  lemma {:induction false} RunBare(r: Reader, s: string)
    requires r.Reader? && r.mode in {FieldStart, Bare} && !NeedsQuotes(s)
    ensures Run(r, s) == if s == "" then r else r.(field := r.field + s, mode := Bare)
    decreases s
  {
    if s != "" {
      var next := r.(field := r.field + [s[0]], mode := Bare);
      assert Feed(r, s[0]) == next;
      RunBare(next, s[1..]);
      assert next.field + s[1..] == r.field + s;
      assert s[1..] == "" ==> next.field == r.field + s;
    }
  }

  /** Reading an escaped field from the start of a field leaves that field behind, ready to be ended. */
  lemma {:induction false} RunEscaped(r: Reader, s: string)
    requires r.Reader? && r.mode == FieldStart && r.field == ""
    ensures exists mode :: mode != Quoted && Run(r, CsvEscape(s)) == r.(field := s, mode := mode)
  {
    if NeedsQuotes(s) {
      var body := Replace(s, '"', "\"\"");
      RunConcat(r, "\"" + body, "\"");
      RunConcat(r, "\"", body);
      var open := r.(mode := Quoted);
      RunQuoted(open, s);
      assert open.field + s == s;
      assert Run(r, CsvEscape(s)) == r.(field := s, mode := QuoteSeen);
    } else {
      RunBare(r, s);
      assert r.field + s == s;
      assert Run(r, CsvEscape(s)) == r.(field := s, mode := if s == "" then FieldStart else Bare);
    }
  }

  /** Text x followed by an escaped field and a separator. */
  lemma {:induction false} RunField(r0: Reader, x: string, r: Reader, s: string, sep: char)
    requires Run(r0, x) == r && r.Reader? && r.mode == FieldStart && r.field == "" && (sep == ',' || sep == '\n')
    ensures Run(r0, x + CsvEscape(s) + [sep]) ==
            if sep == ',' then EndField(r.(field := s)) else EndRecord(r.(field := s))
  {
    RunEscaped(r, s);
    var mode :| mode != Quoted && Run(r, CsvEscape(s)) == r.(field := s, mode := mode);
    RunConcat(r0, x, CsvEscape(s));
    RunConcat(r0, x + CsvEscape(s), [sep]);
  }

  /** At the start of a record: x reads as the given leading fields. */
  ghost predicate Holds(r: Reader, x: string, fields: seq<string>)
    requires r.Reader?
  {
    Run(r, x) == r.(row := fields)
  }

  ghost predicate AtRecordStart(r: Reader) {
    r.Reader? && r.row == [] && r.mode == FieldStart && r.field == ""
  }

  lemma {:induction false} NextField(r: Reader, x: string, fields: seq<string>, s: string)
    requires AtRecordStart(r) && Holds(r, x, fields)
    ensures Holds(r, x + CsvEscape(s) + ",", fields + [s])
    ensures Run(r, x + CsvEscape(s) + "\n") == r.(records := r.records + [fields + [s]])
  {
    RunField(r, x, r.(row := fields), s, ',');
    RunField(r, x, r.(row := fields), s, '\n');
  }

  function RowText(f: seq<string>): string
    requires |f| == 8
  {
    CsvEscape(f[0]) + "," + CsvEscape(f[1]) + "," + CsvEscape(f[2]) + "," + CsvEscape(f[3]) + ","
    + CsvEscape(f[4]) + "," + CsvEscape(f[5]) + "," + CsvEscape(f[6]) + "," + CsvEscape(f[7]) + "\n"
  }

  /** The first k fields of a row with their commas. */
  ghost function Lead(f: seq<string>, k: nat): string
    requires k <= |f|
  {
    if k == 0 then "" else Lead(f, k - 1) + CsvEscape(f[k - 1]) + ","
  }

  lemma {:induction false} RunLead(r: Reader, f: seq<string>, k: nat)
    requires AtRecordStart(r) && k <= |f|
    ensures Holds(r, Lead(f, k), f[..k])
  {
    if k > 0 {
      RunLead(r, f, k - 1);
      NextField(r, Lead(f, k - 1), f[..k - 1], f[k - 1]);
      assert f[..k] == f[..k - 1] + [f[k - 1]];
    }
  }

  lemma {:induction false} RowIsLead(f: seq<string>)
    requires |f| == 8
    ensures RowText(f) == Lead(f, 7) + CsvEscape(f[7]) + "\n"
  {
    assert Lead(f, 1) == CsvEscape(f[0]) + "," by {
      assert "" + CsvEscape(f[0]) == CsvEscape(f[0]);
    }
    assert Lead(f, 3) == CsvEscape(f[0]) + "," + CsvEscape(f[1]) + "," + CsvEscape(f[2]) + ",";
    assert Lead(f, 5) == Lead(f, 3) + CsvEscape(f[3]) + "," + CsvEscape(f[4]) + ",";
  }

  lemma {:induction false} RunRow(r: Reader, f: seq<string>)
    requires AtRecordStart(r) && |f| == 8
    ensures Run(r, RowText(f)) == r.(records := r.records + [f])
  {
    RowIsLead(f);
    RunLead(r, f, 7);
    NextField(r, Lead(f, 7), f[..7], f[7]);
    assert f[..7] + [f[7]] == f;
  }

  lemma {:induction false} PlainName(s: string)
    requires forall i :: 0 <= i < |s| ==> 'a' <= s[i] <= 'z' || s[i] == '_'
    ensures CsvEscape(s) == s
  {
  }

  lemma {:induction false} HeaderIsRow()
    ensures HEADER == RowText(Columns)
  {
    PlainName("id");
    PlainName("timestamp");
    PlainName("user_id");
    PlainName("user_email");
    PlainName("action");
    PlainName("resource_type");
    PlainName("resource_id");
    PlainName("diff");
  }

  /** The text produced for a list of entries. */
  function CsvText(entries: seq<AuditEntry>): string {
    if entries == [] then HEADER else CsvText(entries[..|entries| - 1]) + EntryText(entries[|entries| - 1])
  }

  lemma {:induction false} RunHeader()
    ensures Run(Fresh, HEADER) == Fresh.(records := [Columns])
  {
    HeaderIsRow();
    RunRow(Fresh, Columns);
  }

  lemma {:induction false} RunOneMore(text: string, r: Reader, e: AuditEntry)
    requires AtRecordStart(r) && Run(Fresh, text) == r
    ensures Run(Fresh, text + EntryText(e)) == r.(records := r.records + [Fields(e)])
  {
    RunConcat(Fresh, text, EntryText(e));
    RunRow(r, Fields(e));
  }

  lemma {:induction false} RunText(entries: seq<AuditEntry>)
    ensures Run(Fresh, CsvText(entries)) == Fresh.(records := [Columns] + AllFields(entries))
  {
    if entries == [] {
      RunHeader();
    } else {
      var front, last := entries[..|entries| - 1], entries[|entries| - 1];
      RunText(front);
      RunOneMore(CsvText(front), Fresh.(records := [Columns] + AllFields(front)), last);
    }
  }

  /** `to_csv`: whatever commas, quotes, line feeds or lone carriage returns the fields contain, reading the text
      back yields the header and exactly the eight fields of every entry (an absent value reads as empty). */
  method ToCsv(entries: seq<AuditEntry>) returns (out: string)
    ensures Parse(out) == Some([Columns] + AllFields(entries))
    ensures out == CsvText(entries)
  {
    out := HEADER;
    for i := 0 to |entries|
      invariant out == CsvText(entries[..i])
    {
      out := out + EntryText(entries[i]);
      assert entries[..i + 1][..i] == entries[..i];
    }
    assert entries[..|entries|] == entries;
    RunText(entries);
  }

  lemma {:induction false} AllFieldsAt(entries: seq<AuditEntry>, i: nat)
    requires i < |entries|
    ensures |AllFields(entries)| == |entries| && AllFields(entries)[i] == Fields(entries[i])
    decreases |entries|
  {
    var front := entries[..|entries| - 1];
    if front != [] {
      AllFieldsAt(front, if i < |front| then i else 0);
    }
  }

  lemma {:induction false} IntTextInjective(m: int, n: int)
    requires IntText(m) == IntText(n)
    ensures m == n
  {
    DecimalValue(if m < 0 then -m else m);
    DecimalValue(if n < 0 then -n else n);
    assert IsDigit(Decimal(if m < 0 then -m else m)[0]) && IsDigit(Decimal(if n < 0 then -n else n)[0]);
    if m < 0 && n < 0 {
      assert IntText(m)[1..] == Decimal(-m) && IntText(n)[1..] == Decimal(-n);
    }
  }

  /** Two exports with the same text carry the same entries, up to absent values reading as empty. */
  lemma {:induction false} ExportIsLossless(a: seq<AuditEntry>, b: seq<AuditEntry>)
    requires CsvText(a) == CsvText(b)
    ensures |a| == |b| && forall i :: 0 <= i < |a| ==> a[i].id == b[i].id && Fields(a[i]) == Fields(b[i])
  {
    RunText(a);
    RunText(b);
    assert AllFields(a) == ([Columns] + AllFields(a))[1..] == ([Columns] + AllFields(b))[1..] == AllFields(b);
    if a != [] {
      AllFieldsAt(a, 0);
    }
    if b != [] {
      AllFieldsAt(b, 0);
    }
    forall i | 0 <= i < |a| ensures a[i].id == b[i].id && Fields(a[i]) == Fields(b[i]) {
      AllFieldsAt(a, i);
      AllFieldsAt(b, i);
      assert Fields(a[i])[0] == Fields(b[i])[0];
      IntTextInjective(a[i].id, b[i].id);
    }
  }
}
