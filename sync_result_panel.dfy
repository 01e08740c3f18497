/** The log export of the sync result panel
    (frontend/src/components/SyncResultPanel.js, `handleExport`): the log
    lines minus the progress lines become CSV rows of SKU, status and
    message, one per line that names a SKU, under a header row, and the
    rows are written out as quoted CSV fields (section 2 of RFC 4180).

    The emoji-stripping `cleanLine` step is given as the parameter `clean`;
    the Blob download is not modelled. Strings are sequences of code
    points. */
module SyncResultPanel {
  import opened Js
  import opened Text

  // ---------------------------------------------------------------------
  // The progress-line filter

  /** The prefix of the progress lines the export leaves out. */
  const ProgressPrefix: string := "\U{1F4E6} Progress:"

  /** `logMessages.filter(line => !line.startsWith('📦 Progress:'))`. */
  function FilteredLogs(logs: seq<string>): (r: seq<string>)
    ensures |r| <= |logs|
    ensures forall x :: x in r <==> x in logs && !StartsWith(x, ProgressPrefix)
  {
    if logs == [] then []
    else (if StartsWith(logs[0], ProgressPrefix) then [] else [logs[0]]) + FilteredLogs(logs[1..])
  }

  /** The filter keeps the order of the log: filtering two stretches of the
      log one after the other is filtering the whole. */
  lemma {:induction false} FilteredLogsAppend(a: seq<string>, b: seq<string>)
    ensures FilteredLogs(a + b) == FilteredLogs(a) + FilteredLogs(b)
  {
    if a == [] {
      assert a + b == b;
    } else {
      assert (a + b)[0] == a[0];
      assert (a + b)[1..] == a[1..] + b;
      FilteredLogsAppend(a[1..], b);
    }
  }

  // ---------------------------------------------------------------------
  // The SKU: `line.match(/SKU: ([^\s)]+)/i)[1]`

  /** A character the group `[^\s)]` accepts. */
  predicate SkuChar(c: char) {
    !IsSpace(c) && c != ')'
  }

  /** The label, in the case `/i` folds it to. */
  const SkuLabel: string := "sku: "

  /** The pattern matches at index `k`: the label in any ASCII case, then at
      least one SKU character. */
  predicate SkuAt(line: string, k: int) {
    0 <= k && k + |SkuLabel| + 1 <= |line|
    && LowerAll(line[k..k + |SkuLabel|]) == SkuLabel
    && SkuChar(line[k + |SkuLabel|])
  }

  /** The leftmost index at or after `from` where the pattern matches. */
  function FirstSkuFrom(line: string, from: nat): (r: Option<nat>)
    ensures r.Some? ==> from <= r.value && SkuAt(line, r.value)
    ensures r.Some? ==> forall j :: from <= j < r.value ==> !SkuAt(line, j)
    ensures r.None? ==> forall j :: from <= j ==> !SkuAt(line, j)
    decreases |line| - from
  {
    if from + |SkuLabel| + 1 > |line| then None
    else if SkuAt(line, from) then Some(from)
    else FirstSkuFrom(line, from + 1)
  }

  /** The greedy `[^\s)]+`: the longest prefix of SKU characters. */
  function SkuRun(s: string): (r: string)
    ensures |r| <= |s| && r == s[..|r|]
    ensures forall i :: 0 <= i < |r| ==> SkuChar(r[i])
    ensures |r| < |s| ==> !SkuChar(s[|r|])
  {
    if s != [] && SkuChar(s[0]) then [s[0]] + SkuRun(s[1..]) else []
  }

  /** The captured SKU, or None when the line has no match. */
  function Sku(line: string): (r: Option<string>)
    ensures r.Some? ==> r.value != []
  {
    match FirstSkuFrom(line, 0)
    case None => None
    case Some(k) => Some(SkuRun(line[k + |SkuLabel|..]))
  }

  /** `v` is the capture of a match at `k`: `k` is the leftmost index where
      the pattern matches, and `v` is the whole run of SKU characters that
      follows the label there. */
  predicate CapturedAt(line: string, k: int, v: string) {
    && SkuAt(line, k)
    && (forall j :: 0 <= j < k ==> !SkuAt(line, j))
    && var start := k + |SkuLabel|;
    && v != [] && start + |v| <= |line| && line[start..start + |v|] == v
    && (forall i :: 0 <= i < |v| ==> SkuChar(v[i]))
    && (start + |v| == |line| || !SkuChar(line[start + |v|]))
  }

  /** Two maximal runs of SKU characters from one index are the same run. */
  lemma MaximalRunIsUnique(s: string, v: string, w: string)
    requires |v| <= |s| && s[..|v|] == v && (forall i :: 0 <= i < |v| ==> SkuChar(v[i]))
    requires |v| == |s| || !SkuChar(s[|v|])
    requires |w| <= |s| && s[..|w|] == w && (forall i :: 0 <= i < |w| ==> SkuChar(w[i]))
    requires |w| == |s| || !SkuChar(s[|w|])
    ensures v == w
  {
  }

  /** The SKU the export reads is exactly the capture of the leftmost match:
      a line has a SKU iff the pattern matches somewhere in it, and the SKU
      is then the longest non-empty run of characters that are neither
      white space nor `)` right after the leftmost `SKU: `. */
  lemma SkuIsLeftmostCapture(line: string, v: string)
    ensures Sku(line).None? <==> forall k :: !SkuAt(line, k)
    ensures Sku(line) == Some(v) <==> exists k :: CapturedAt(line, k, v)
  {
    match FirstSkuFrom(line, 0)
    case None =>
    case Some(k) =>
      var start := k + |SkuLabel|;
      var u := SkuRun(line[start..]);
      assert line[start..][0] == line[start];
      assert line[start..start + |u|] == u;
      assert CapturedAt(line, k, u);
      if exists k' :: CapturedAt(line, k', v) {
        var k' :| CapturedAt(line, k', v);
        assert k' == k;
        assert line[start..][..|v|] == v;
        MaximalRunIsUnique(line[start..], u, v);
      }
  }

  // ---------------------------------------------------------------------
  // The status

  /** `/❌|could not|failed|error/i.test(line)`. */
  predicate FailureMarked(line: string) {
    Contains(line, "\U{274C}") || ContainsIgnoreCase(line, "could not")
    || ContainsIgnoreCase(line, "failed") || ContainsIgnoreCase(line, "error")
  }

  /** `/✅|created|updated|complete/i.test(line)`. */
  predicate SuccessMarked(line: string) {
    Contains(line, "\U{2705}") || ContainsIgnoreCase(line, "created")
    || ContainsIgnoreCase(line, "updated") || ContainsIgnoreCase(line, "complete")
  }

  /** The status column: a failure marker wins over a success marker, and a
      line with neither gets an empty status. */
  function Status(line: string): (r: string)
    ensures r == "Failed" <==> FailureMarked(line)
    ensures r == "Success" <==> !FailureMarked(line) && SuccessMarked(line)
    ensures r == "" <==> !FailureMarked(line) && !SuccessMarked(line)
  {
    if FailureMarked(line) then "Failed"
    else if SuccessMarked(line) then "Success"
    else ""
  }

  // ---------------------------------------------------------------------
  // The rows

  const Header: seq<string> := ["SKU", "Status", "Message"]

  /** The row one log line contributes, if any. */
  function RowOf(line: string, clean: string -> string): (r: Option<seq<string>>)
    ensures r.Some? <==> Sku(line).Some?
    ensures r.Some? ==> |r.value| == 3 && r.value[0] != []
  {
    match Sku(line)
    case None => None
    case Some(sku) => Some([sku, Status(line), clean(line)])
  }

  /** The values of the entries that are present, in order. */
  function Values<T>(xs: seq<Option<T>>): (r: seq<T>)
    ensures |r| <= |xs|
  {
    if xs == [] then []
    else
      var last := xs[|xs| - 1];
      Values(xs[..|xs| - 1]) + (if last.Some? then [last.value] else [])
  }

  /** A value is kept iff some entry holds it. */
  lemma {:induction false} ValuesAreThePresentEntries<T>(xs: seq<Option<T>>)
    ensures forall x :: x in Values(xs) <==> Some(x) in xs
  {
    if xs != [] {
      var init := xs[..|xs| - 1];
      ValuesAreThePresentEntries(init);
      assert xs == init + [xs[|xs| - 1]];
    }
  }

  /** What each line contributes, line by line. */
  function RowOptions(lines: seq<string>, clean: string -> string): (r: seq<Option<seq<string>>>)
    ensures |r| == |lines|
    ensures forall j :: 0 <= j < |lines| ==> r[j] == RowOf(lines[j], clean)
  {
    seq(|lines|, j requires 0 <= j < |lines| => RowOf(lines[j], clean))
  }

  /** The rows the `forEach` pushes for `lines`, in order. */
  function Rows(lines: seq<string>, clean: string -> string): (r: seq<seq<string>>)
    ensures |r| <= |lines|
  {
    Values(RowOptions(lines, clean))
  }

  /** A row is exported iff it is the SKU, status and cleaned text of one
      of the lines, so every line that names a SKU has its row, and no
      other line has one. */
  lemma RowsAreSkuLines(lines: seq<string>, clean: string -> string)
    ensures forall row :: row in Rows(lines, clean) <==>
      exists j :: 0 <= j < |lines| && RowOf(lines[j], clean) == Some(row)
    ensures forall j :: 0 <= j < |lines| && Sku(lines[j]).Some? ==>
      RowOf(lines[j], clean).value in Rows(lines, clean)
    ensures forall row :: row in Rows(lines, clean) ==> |row| == 3 && row[0] != []
  {
    var xs := RowOptions(lines, clean);
    ValuesAreThePresentEntries(xs);
    forall row | row in Rows(lines, clean)
      ensures exists j :: 0 <= j < |lines| && RowOf(lines[j], clean) == Some(row)
    {
      var j :| 0 <= j < |xs| && xs[j] == Some(row);
    }
    forall j | 0 <= j < |lines| && Sku(lines[j]).Some?
      ensures RowOf(lines[j], clean).value in Rows(lines, clean)
    {
      assert xs[j] == Some(RowOf(lines[j], clean).value);
    }
  }

  // ---------------------------------------------------------------------
  // CSV text: `"${String(field).replace(/"/g, '""')}"`, joined by ',' and
  // the rows by '\n'

  /** `field.replace(/"/g, '""')`: every quote doubled. */
  function Escape(f: string): (r: string)
    ensures |r| >= |f|
  {
    if f == [] then []
    else (if f[0] == '"' then "\"\"" else [f[0]]) + Escape(f[1..])
  }

  function Quote(f: string): string {
    "\"" + Escape(f) + "\""
  }

  function QuotedFields(row: seq<string>): (r: seq<string>)
    ensures |r| == |row|
  {
    if row == [] then [] else [Quote(row[0])] + QuotedFields(row[1..])
  }

  function RowText(row: seq<string>): string {
    Join(QuotedFields(row), ",")
  }

  function RowTexts(rows: seq<seq<string>>): (r: seq<string>)
    ensures |r| == |rows|
  {
    if rows == [] then [] else [RowText(rows[0])] + RowTexts(rows[1..])
  }

  function CsvText(rows: seq<seq<string>>): string {
    Join(RowTexts(rows), "\n")
  }

  // A reader of such text, following section 2 of RFC 4180 for fields that
  // are all enclosed in double quotes.

  /** The rest of a quoted field after its opening quote: the field's text,
      a doubled quote standing for one quote, and what follows the closing
      quote. */
  function ReadQuoted(s: string): (r: Option<(string, string)>)
    ensures r.Some? ==> |r.value.1| < |s|
    decreases |s|
  {
    if s == [] then None
    else if s[0] == '"' then
      if |s| >= 2 && s[1] == '"' then
        match ReadQuoted(s[2..])
        case None => None
        case Some((f, rest)) => Some(("\"" + f, rest))
      else Some(("", s[1..]))
    else
      match ReadQuoted(s[1..])
      case None => None
      case Some((f, rest)) => Some(([s[0]] + f, rest))
  }

  /** One record at the front of a CSV text whose fields are all quoted:
      its fields, which a ',' separates, and the text after its last field. */
  function ParseRecord(s: string): (r: Option<(seq<string>, string)>)
    ensures r.Some? ==> r.value.0 != [] && |r.value.1| < |s|
    decreases |s|
  {
    if s == [] || s[0] != '"' then None
    else
      match ReadQuoted(s[1..])
      case None => None
      case Some((f, rest)) =>
        if rest != [] && rest[0] == ',' then
          match ParseRecord(rest[1..])
          case None => None
          case Some((fields, after)) => Some(([f] + fields, after))
        else Some(([f], rest))
  }

  /** The records of such a text: a record ends at '\n' or at the end. */
  function ParseCsv(s: string): (r: Option<seq<seq<string>>>)
    decreases |s|
  {
    match ParseRecord(s)
    case None => None
    case Some((record, rest)) =>
      if rest == [] then Some([record])
      else if rest[0] == '\n' then
        match ParseCsv(rest[1..])
        case None => None
        case Some(records) => Some([record] + records)
      else None
  }

  /** An escaped field followed by its closing quote reads back as the
      field, whatever follows that is not itself a quote. */
  lemma {:induction false} EscapeReadsBack(f: string, rest: string)
    requires rest == [] || rest[0] != '"'
    ensures ReadQuoted(Escape(f) + ("\"" + rest)) == Some((f, rest))
  {
    if f == [] {
      assert Escape(f) + ("\"" + rest) == "\"" + rest;
    } else {
      EscapeReadsBack(f[1..], rest);
      if f[0] == '"' {
        QuoteStep(f, rest);
      } else {
        PlainStep(f, rest);
      }
    }
  }

  /** A quote in front of an escaped field is doubled and reads back as
      one quote. */
  lemma QuoteStep(f: string, rest: string)
    requires f != [] && f[0] == '"'
    requires ReadQuoted(Escape(f[1..]) + ("\"" + rest)) == Some((f[1..], rest))
    ensures ReadQuoted(Escape(f) + ("\"" + rest)) == Some((f, rest))
  {
    var body := Escape(f[1..]) + ("\"" + rest);
    EscapedQuote(f, "\"" + rest);
    DoubledQuoteReadsBack(body, f[1..], rest);
    assert f == "\"" + f[1..];
  }

  /** Any other character in front of an escaped field reads back as
      itself. */
  lemma PlainStep(f: string, rest: string)
    requires f != [] && f[0] != '"'
    requires ReadQuoted(Escape(f[1..]) + ("\"" + rest)) == Some((f[1..], rest))
    ensures ReadQuoted(Escape(f) + ("\"" + rest)) == Some((f, rest))
  {
    var body := Escape(f[1..]) + ("\"" + rest);
    EscapedPlain(f, "\"" + rest);
    PlainCharReadsBack(f[0], body, f[1..], rest);
    assert f == [f[0]] + f[1..];
  }

  lemma EscapedQuote(f: string, t: string)
    requires f != [] && f[0] == '"'
    ensures Escape(f) + t == "\"\"" + (Escape(f[1..]) + t)
  {
  }

  lemma EscapedPlain(f: string, t: string)
    requires f != [] && f[0] != '"'
    ensures Escape(f) + t == [f[0]] + (Escape(f[1..]) + t)
  {
  }

  /** Inside a quoted field a doubled quote reads as one quote. */
  lemma DoubledQuoteReadsBack(body: string, f: string, rest: string)
    requires ReadQuoted(body) == Some((f, rest))
    ensures ReadQuoted("\"\"" + body) == Some(("\"" + f, rest))
  {
    assert ("\"\"" + body)[2..] == body;
  }

  /** Inside a quoted field any other character reads as itself. */
  lemma PlainCharReadsBack(c: char, body: string, f: string, rest: string)
    requires c != '"' && ReadQuoted(body) == Some((f, rest))
    ensures ReadQuoted([c] + body) == Some(([c] + f, rest))
  {
    assert ([c] + body)[1..] == body;
  }

  /** A quoted field takes itself off the front of the text, when what
      follows it does not start with a quote. */
  lemma QuotedFieldReadsBack(f: string, after: string)
    requires after == [] || after[0] != '"'
    ensures var s := Quote(f) + after; s[0] == '"' && ReadQuoted(s[1..]) == Some((f, after))
  {
    var s := Quote(f) + after;
    assert s[1..] == Escape(f) + ("\"" + after);
    EscapeReadsBack(f, after);
  }

  lemma RowTextCons(row: seq<string>)
    requires row != []
    ensures |row| == 1 ==> RowText(row) == Quote(row[0])
    ensures |row| > 1 ==> RowText(row) == Quote(row[0]) + "," + RowText(row[1..])
  {
    var q := QuotedFields(row);
    assert q[0] == Quote(row[0]);
    if |row| > 1 {
      assert q[1..] == QuotedFields(row[1..]);
    }
  }

  lemma CsvTextCons(rows: seq<seq<string>>)
    requires rows != []
    ensures |rows| == 1 ==> CsvText(rows) == RowText(rows[0])
    ensures |rows| > 1 ==> CsvText(rows) == RowText(rows[0]) + ("\n" + CsvText(rows[1..]))
  {
    var t := RowTexts(rows);
    assert t[0] == RowText(rows[0]);
    if |rows| > 1 {
      assert t[1..] == RowTexts(rows[1..]);
    }
  }

  /** The last field of a record. */
  lemma LastFieldReadsBack(f: string, tail: string)
    requires tail == [] || tail[0] == '\n'
    ensures ParseRecord(Quote(f) + tail) == Some(([f], tail))
  {
    QuotedFieldReadsBack(f, tail);
  }

  /** A field followed by a comma and the rest of its record. */
  lemma FieldThenCommaReadsBack(f: string, rest: string, fields: seq<string>, tail: string)
    requires ParseRecord(rest) == Some((fields, tail))
    ensures ParseRecord(Quote(f) + ("," + rest)) == Some(([f] + fields, tail))
  {
    var after := "," + rest;
    QuotedFieldReadsBack(f, after);
    assert after[1..] == rest;
  }

  lemma Regrouped(a: string, b: string, c: string, d: string)
    ensures a + b + c + d == a + (b + (c + d))
  {
  }

  /** A row's text reads back as the row, up to a line feed or the end. */
  lemma {:induction false} RecordReadsBack(row: seq<string>, tail: string)
    requires row != []
    requires tail == [] || tail[0] == '\n'
    ensures ParseRecord(RowText(row) + tail) == Some((row, tail))
  {
    RowTextCons(row);
    if |row| == 1 {
      LastFieldReadsBack(row[0], tail);
      assert [row[0]] == row;
    } else {
      var rest := RowText(row[1..]) + tail;
      RecordReadsBack(row[1..], tail);
      FieldThenCommaReadsBack(row[0], rest, row[1..], tail);
      Regrouped(Quote(row[0]), ",", RowText(row[1..]), tail);
      assert [row[0]] + row[1..] == row;
    }
  }

  /** A record followed by a line feed and more records. */
  lemma NextRecordReadsBack(s: string, record: seq<string>, more: string, records: seq<seq<string>>)
    requires ParseRecord(s) == Some((record, "\n" + more))
    requires ParseCsv(more) == Some(records)
    ensures ParseCsv(s) == Some([record] + records)
  {
    assert ("\n" + more)[1..] == more;
  }

  /** The exported text reads back as the exported rows: every field,
      quotes and commas included, decodes to its original text. */
  lemma {:induction false} CsvRoundTrip(rows: seq<seq<string>>)
    requires rows != []
    requires forall i :: 0 <= i < |rows| ==> rows[i] != []
    ensures ParseCsv(CsvText(rows)) == Some(rows)
  {
    CsvTextCons(rows);
    if |rows| == 1 {
      RecordReadsBack(rows[0], "");
      assert RowText(rows[0]) + "" == RowText(rows[0]);
      assert [rows[0]] == rows;
    } else {
      var more := CsvText(rows[1..]);
      RecordReadsBack(rows[0], "\n" + more);
      CsvRoundTrip(rows[1..]);
      NextRecordReadsBack(CsvText(rows), rows[0], more, rows[1..]);
      assert [rows[0]] + rows[1..] == rows;
    }
  }

  /** The export as a whole reads back: the header and the rows of `lines`
      are what a CSV reader gets from the text. */
  lemma ExportReadsBack(lines: seq<string>, clean: string -> string)
    ensures ParseCsv(CsvText([Header] + Rows(lines, clean))) == Some([Header] + Rows(lines, clean))
  {
    var rows := [Header] + Rows(lines, clean);
    RowsAreSkuLines(lines, clean);
    forall k | 0 <= k < |rows| ensures rows[k] != [] {
      if k > 0 {
        assert rows[k] in Rows(lines, clean);
      }
    }
    CsvRoundTrip(rows);
  }

  // ---------------------------------------------------------------------
  // handleExport

  /** The rows `handleExport` builds from the filtered lines: the header,
      then what its `forEach` pushes, one row per line that names a SKU. */
  method ExportRows(lines: seq<string>, clean: string -> string) returns (rows: seq<seq<string>>)
    ensures rows == [Header] + Rows(lines, clean)
  {
    ghost var pushed := RowOptions(lines, clean);
    rows := [Header];
    var i := 0;
    while i < |lines|
      invariant 0 <= i <= |lines|
      invariant rows == [Header] + Values(pushed[..i])
    {
      var line := lines[i];
      var sku := Sku(line);
      if sku.Some? {
        rows := rows + [[sku.value, Status(line), clean(line)]];
      }
      assert pushed[..i + 1][..i] == pushed[..i];
      i := i + 1;
    }
    assert pushed[..i] == pushed;
  }

  /** `handleExport` up to the download: the header, then one row per
      filtered line that names a SKU, in log order, and the CSV text of
      those rows, which reads back as the rows. */
  method HandleExport(logMessages: seq<string>, clean: string -> string)
    returns (rows: seq<seq<string>>, csv: string)
    ensures rows == [Header] + Rows(FilteredLogs(logMessages), clean)
    ensures csv == CsvText(rows)
    ensures ParseCsv(csv) == Some(rows)
  {
    var lines := FilteredLogs(logMessages);
    rows := ExportRows(lines, clean);
    csv := CsvText(rows);
    ExportReadsBack(lines, clean);
  }
}
