/** src/utils.ts: the two exports of the result table, the comma-separated
    text `downloadCSV` saves and the tab-separated text `copyToClipboard`
    puts on the clipboard. The CSV text is read back by a reader that
    follows rules 5-7 of section 2 of RFC 4180 (quoted fields, doubled
    quotes), with a line feed as the record break since that is what the
    writer puts between records. */
module Export {
  import opened Common
  import opened Text
  import opened Links

  /** The column order of both exports. */
  const Headers: seq<string> := ["slug", "website", "twitter", "discord", "telegram", "error"]

  /** `row[header] || ''` for each header in turn. */
  function Fields(row: SocialRow): (r: seq<string>)
    ensures |r| == |Headers|
    ensures r[0] == row.slug && r[1] == row.website && r[2] == row.twitter
    ensures r[3] == row.discord && r[4] == row.telegram
    ensures r[5] == (if row.error.Some? then row.error.value else "")
  {
    [row.slug, row.website, row.twitter, row.discord, row.telegram,
     if row.error.Some? then row.error.value else ""]
  }

  // ---------------------------------------------------------------- writer

  /** `value.replace(/"/g, '""')`. */
  function DoubleQuotes(v: string): (r: string)
    ensures ',' in r <==> ',' in v
    ensures '\n' in r <==> '\n' in v
    ensures '"' in r <==> '"' in v
    ensures '"' !in v ==> r == v
  {
    if v == [] then [] else (if v[0] == '"' then "\"\"" else [v[0]]) + DoubleQuotes(v[1..])
  }

  predicate NeedsQuotes(v: string) {
    ',' in v || '\n' in v || '"' in v
  }

  /** One escaped CSV field: doubled quotes, wrapped in quotes when the
      doubled text holds a comma, a line feed or a quote. */
  function EscapeField(v: string): (r: string)
    ensures !NeedsQuotes(v) ==> r == v
    ensures NeedsQuotes(v) ==> r == "\"" + DoubleQuotes(v) + "\""
  {
    var escaped := DoubleQuotes(v);
    if NeedsQuotes(escaped) then "\"" + escaped + "\"" else escaped
  }

  function EscapeAll(vs: seq<string>): (r: seq<string>)
    ensures |r| == |vs| && forall k :: 0 <= k < |vs| ==> r[k] == EscapeField(vs[k])
  {
    seq(|vs|, k requires 0 <= k < |vs| => EscapeField(vs[k]))
  }

  /** One CSV line: the escaped values joined with commas. */
  function CsvLine(vs: seq<string>): string {
    Join(EscapeAll(vs), ",")
  }

  /** The CSV line of each record of a table. */
  function CsvLines(table: seq<seq<string>>): (r: seq<string>)
    ensures |r| == |table| && forall i :: 0 <= i < |table| ==> r[i] == CsvLine(table[i])
  {
    seq(|table|, i requires 0 <= i < |table| => CsvLine(table[i]))
  }

  /** The values of each row, in row order. */
  function RowFields(rows: seq<SocialRow>): (r: seq<seq<string>>)
    ensures |r| == |rows| && forall i :: 0 <= i < |rows| ==> r[i] == Fields(rows[i])
  {
    seq(|rows|, i requires 0 <= i < |rows| => Fields(rows[i]))
  }

  /** The text `downloadCSV` saves: the header line, which is not escaped,
      then one line per row, joined with line feeds. */
  function CsvText(rows: seq<SocialRow>): string {
    Join([Join(Headers, ",")] + CsvLines(RowFields(rows)), "\n")
  }

  /** The text `copyToClipboard` writes: the same table with tabs between
      the values and no escaping at all. */
  function TsvText(rows: seq<SocialRow>): string {
    Join([Join(Headers, "\t")] + TsvLines(rows), "\n")
  }

  /** Each row's values joined by tabs, verbatim. */
  function TsvLines(rows: seq<SocialRow>): (r: seq<string>)
    ensures |r| == |rows| && forall i :: 0 <= i < |rows| ==> r[i] == Join(Fields(rows[i]), "\t")
  {
    seq(|rows|, i requires 0 <= i < |rows| => Join(Fields(rows[i]), "\t"))
  }

  // ---------------------------------------------------------------- reader

  /** The rest of a quoted field after its opening quote: the value up to
      the closing quote, with `""` read as one quote, and the text after the
      closing quote; `None` when the closing quote is missing. */
  function QuotedRest(s: string): (r: Option<(string, string)>)
    ensures r.Some? ==> |r.value.1| < |s|
  {
    if s == [] then None
    else if s[0] == '"' then
      if |s| >= 2 && s[1] == '"' then
        match QuotedRest(s[2..])
        case None => None
        case Some((v, rest)) => Some(("\"" + v, rest))
      else Some(("", s[1..]))
    else
      match QuotedRest(s[1..])
      case None => None
      case Some((v, rest)) => Some(([s[0]] + v, rest))
  }

  predicate EndsField(c: char) {
    c == ',' || c == '\n'
  }

  /** One field: quoted when it starts with a quote, otherwise everything up
      to the next comma or line feed. */
  function ReadField(s: string): (r: Option<(string, string)>)
    ensures r.Some? ==> |r.value.1| <= |s|
  {
    if s != [] && s[0] == '"' then QuotedRest(s[1..])
    else
      var n := FindFirst(s, EndsField);
      Some((s[..n], s[n..]))
  }

  /** The fields of one record, up to the line feed or the end of the text. */
  function ReadRecord(s: string): (r: Option<(seq<string>, string)>)
    ensures r.Some? ==> |r.value.0| >= 1 && |r.value.1| <= |s|
    decreases |s|
  {
    var field := ReadField(s);
    if field.None? then None
    else
      var (v, rest) := field.value;
      if rest != [] && rest[0] == ',' then
        var more := ReadRecord(rest[1..]);
        if more.None? then None else Some(([v] + more.value.0, more.value.1))
      else Some(([v], rest))
  }

  /** Every record of a CSV text; `None` when a quoted field is not closed
      or is followed by anything but a separator. */
  function ReadCsv(s: string): (r: Option<seq<seq<string>>>)
    ensures r.Some? ==> |r.value| >= 1
    decreases |s|
  {
    var record := ReadRecord(s);
    if record.None? then None
    else
      var (vs, rest) := record.value;
      if rest == [] then Some([vs])
      else if rest[0] == '\n' then
        var more := ReadCsv(rest[1..]);
        if more.None? then None else Some([vs] + more.value)
      else None
  }

  // ---------------------------------------------------------------- round trip

  /** What follows a field in the written text: nothing, or a separator. */
  predicate FieldEnd(rest: string) {
    rest == [] || EndsField(rest[0])
  }

  /** A doubled quote inside a quoted field stands for one quote. */
  lemma QuotedRestPair(t: string)
    ensures QuotedRest("\"\"" + t) ==
      if QuotedRest(t).None? then None
      else Some(("\"" + QuotedRest(t).value.0, QuotedRest(t).value.1))
  {
    assert ("\"\"" + t)[2..] == t;
  }

  /** Any other character inside a quoted field stands for itself. */
  lemma QuotedRestChar(c: char, t: string)
    requires c != '"'
    ensures QuotedRest([c] + t) ==
      if QuotedRest(t).None? then None
      else Some(([c] + QuotedRest(t).value.0, QuotedRest(t).value.1))
  {
    assert ([c] + t)[1..] == t;
  }

  /** Doubling the quotes of a non-empty value, one character at a time. */
  lemma DoubleQuotesCons(v: string, tail: string)
    requires v != []
    ensures DoubleQuotes(v) + tail ==
      (if v[0] == '"' then "\"\"" else [v[0]]) + (DoubleQuotes(v[1..]) + tail)
  {
    AppendAssoc(if v[0] == '"' then "\"\"" else [v[0]], DoubleQuotes(v[1..]), tail);
  }

  /** Regrouping a concatenation around the closing quote. */
  lemma Regroup(d: string, p: string, d1: string, rest: string)
    requires d + ("\"" + rest) == p + (d1 + ("\"" + rest))
    ensures d + "\"" + rest == p + (d1 + "\"" + rest)
  {
    assert d + "\"" + rest == d + ("\"" + rest);
    assert d1 + "\"" + rest == d1 + ("\"" + rest);
  }

  /** A non-empty string is its first character followed by the others. */
  lemma HeadTail(v: string)
    requires v != []
    ensures [v[0]] + v[1..] == v
  {
  }

  lemma {:induction false} QuotedRestDoubled(v: string, rest: string)
    requires FieldEnd(rest)
    ensures QuotedRest(DoubleQuotes(v) + "\"" + rest) == Some((v, rest))
  {
    if v == [] {
      assert DoubleQuotes(v) + "\"" + rest == "\"" + rest;
      assert ("\"" + rest)[1..] == rest;
    } else {
      var t := DoubleQuotes(v[1..]) + "\"" + rest;
      QuotedRestDoubled(v[1..], rest);
      DoubleQuotesCons(v, "\"" + rest);
      Regroup(DoubleQuotes(v), if v[0] == '"' then "\"\"" else [v[0]], DoubleQuotes(v[1..]), rest);
      HeadTail(v);
      if v[0] == '"' {
        QuotedRestPair(t);
      } else {
        QuotedRestChar(v[0], t);
      }
    }
  }

  /** A value that needs no quoting is read up to the separator after it. */
  lemma PlainFieldRead(v: string, rest: string)
    requires FieldEnd(rest) && !NeedsQuotes(v)
    ensures ReadField(v + rest) == Some((v, rest))
  {
    var s := v + rest;
    assert v != [] ==> v[0] != '"' by {
      if v != [] { assert v[0] in v; }
    }
    assert forall i :: 0 <= i < |v| ==> s[i] == v[i] && v[i] in v;
    FindFirstIs(s, EndsField, |v|);
    assert s[..|v|] == v && s[|v|..] == rest;
  }

  /** A quoted value is read up to its closing quote. */
  lemma QuotedFieldRead(v: string, rest: string)
    requires FieldEnd(rest)
    ensures ReadField("\"" + DoubleQuotes(v) + "\"" + rest) == Some((v, rest))
  {
    var inner := DoubleQuotes(v) + "\"" + rest;
    var s := "\"" + DoubleQuotes(v) + "\"" + rest;
    assert s == "\"" + inner;
    assert s[1..] == inner;
    QuotedRestDoubled(v, rest);
  }

  /** Reading an escaped field gives back the value and stops at the
      separator that follows it. */
  lemma ReadFieldEscaped(v: string, rest: string)
    requires FieldEnd(rest)
    ensures ReadField(EscapeField(v) + rest) == Some((v, rest))
  {
    if NeedsQuotes(v) {
      QuotedFieldRead(v, rest);
    } else {
      PlainFieldRead(v, rest);
    }
  }

  /** A CSV line of two or more values: the first escaped value, a comma,
      and the line of the others. */
  lemma CsvLineCons(vs: seq<string>)
    requires |vs| >= 2
    ensures CsvLine(vs) == EscapeField(vs[0]) + ("," + CsvLine(vs[1..]))
  {
    assert EscapeAll(vs)[1..] == EscapeAll(vs[1..]);
  }

  /** A field followed by a comma: the record goes on after the comma. */
  lemma ReadRecordComma(v: string, tail: string)
    ensures ReadRecord(EscapeField(v) + ("," + tail)) ==
      if ReadRecord(tail).None? then None
      else Some(([v] + ReadRecord(tail).value.0, ReadRecord(tail).value.1))
  {
    ReadFieldEscaped(v, "," + tail);
    assert ("," + tail)[1..] == tail;
  }

  /** A record of one value ends at the line feed or the end of the text. */
  lemma ReadRecordOne(v: string, rest: string)
    requires rest == [] || rest[0] == '\n'
    ensures ReadRecord(CsvLine([v]) + rest) == Some(([v], rest))
  {
    assert CsvLine([v]) == EscapeField(v);
    ReadFieldEscaped(v, rest);
  }

  /** Regrouping a line around the comma after its first field. */
  lemma CommaRegroup(line: string, first: string, others: string, rest: string)
    requires line == first + ("," + others)
    ensures line + rest == first + ("," + (others + rest))
  {
    assert ("," + others) + rest == "," + (others + rest);
  }

  /** A non-empty list is its first element followed by the others. */
  lemma FirstThenRest<T>(vs: seq<T>)
    requires vs != []
    ensures [vs[0]] + vs[1..] == vs
  {
  }

  /** A record of two or more values reads its first value, then the rest
      of the record. */
  lemma ReadRecordMore(vs: seq<string>, rest: string)
    requires |vs| >= 2
    requires ReadRecord(CsvLine(vs[1..]) + rest) == Some((vs[1..], rest))
    ensures ReadRecord(CsvLine(vs) + rest) == Some((vs, rest))
  {
    var tail := CsvLine(vs[1..]) + rest;
    CsvLineCons(vs);
    CommaRegroup(CsvLine(vs), EscapeField(vs[0]), CsvLine(vs[1..]), rest);
    ReadRecordComma(vs[0], tail);
    FirstThenRest(vs);
  }

  lemma {:induction false} ReadRecordLine(vs: seq<string>, rest: string)
    requires |vs| >= 1
    requires rest == [] || rest[0] == '\n'
    ensures ReadRecord(CsvLine(vs) + rest) == Some((vs, rest))
  {
    if |vs| == 1 {
      assert vs == [vs[0]];
      ReadRecordOne(vs[0], rest);
    } else {
      ReadRecordLine(vs[1..], rest);
      ReadRecordMore(vs, rest);
    }
  }

  /** Any table of at least one record, each of at least one field, read
      back from its CSV lines joined with line feeds. */
  lemma {:induction false} ReadCsvLines(table: seq<seq<string>>)
    requires |table| >= 1
    requires forall i :: 0 <= i < |table| ==> |table[i]| >= 1
    ensures ReadCsv(Join(CsvLines(table), "\n")) == Some(table)
  {
    if |table| == 1 {
      ReadRecordLine(table[0], "");
      assert Join(CsvLines(table), "\n") == CsvLine(table[0]) + "";
      assert [table[0]] == table;
    } else {
      ReadCsvLines(table[1..]);
      ReadCsvMore(table);
    }
  }

  /** A table of two or more records reads its first line as its first
      record, then the other lines as the others. */
  lemma ReadCsvMore(table: seq<seq<string>>)
    requires |table| >= 2
    requires forall i :: 0 <= i < |table| ==> |table[i]| >= 1
    requires ReadCsv(Join(CsvLines(table[1..]), "\n")) == Some(table[1..])
    ensures ReadCsv(Join(CsvLines(table), "\n")) == Some(table)
  {
    var tail := Join(CsvLines(table[1..]), "\n");
    assert CsvLines(table)[1..] == CsvLines(table[1..]);
    JoinFront(CsvLines(table), "\n", tail);
    ReadRecordLine(table[0], "\n" + tail);
    assert ("\n" + tail)[1..] == tail;
    FirstThenRest(table);
  }

  /** Joining two or more parts: the first, the separator, the rest joined. */
  lemma JoinFront(parts: seq<string>, sep: string, tail: string)
    requires |parts| >= 2 && Join(parts[1..], sep) == tail
    ensures Join(parts, sep) == parts[0] + (sep + tail)
  {
    AppendAssoc(parts[0], sep, tail);
  }

  /** Lower-case ASCII letters only. */
  predicate Lowercase(v: string) {
    forall i :: 0 <= i < |v| ==> 'a' <= v[i] <= 'z'
  }

  lemma LowercasePlain(v: string)
    requires Lowercase(v)
    ensures !NeedsQuotes(v) && '\t' !in v
  {
  }

  /** No header name holds a character that needs quoting or a tab. */
  lemma HeadersPlain()
    ensures forall k :: 0 <= k < |Headers| ==> !NeedsQuotes(Headers[k]) && '\t' !in Headers[k]
  {
    forall k | 0 <= k < |Headers|
      ensures !NeedsQuotes(Headers[k]) && '\t' !in Headers[k]
    {
      assert Lowercase(Headers[k]);
      LowercasePlain(Headers[k]);
    }
  }

  /** So the unescaped header line is the CSV line of the header names. */
  lemma HeaderLinePlain()
    ensures CsvLine(Headers) == Join(Headers, ",")
  {
    HeadersPlain();
    assert EscapeAll(Headers) == Headers;
  }

  /** The saved CSV reads back as the header record followed by each row's
      six values, in row order: escaping loses nothing whatever the values
      hold. */
  lemma CsvRoundTrip(rows: seq<SocialRow>)
    ensures ReadCsv(CsvText(rows)) == Some([Headers] + RowFields(rows))
  {
    var body := RowFields(rows);
    HeaderLinePlain();
    LinesUnderHeader(Headers, body);
    RecordsNonEmpty(Headers, body);
    ReadCsvLines([Headers] + body);
  }

  /** A non-empty first record over records that are all non-empty. */
  lemma RecordsNonEmpty(header: seq<string>, body: seq<seq<string>>)
    requires |header| >= 1
    requires forall i :: 0 <= i < |body| ==> |body[i]| >= 1
    ensures forall i :: 0 <= i < |[header] + body| ==> |([header] + body)[i]| >= 1
  {
    var table := [header] + body;
    forall i | 0 <= i < |table| ensures |table[i]| >= 1 {
      if i > 0 {
        assert table[i] == body[i - 1];
      }
    }
  }

  /** A header line that needs no escaping, followed by the CSV lines of a
      table body, are the CSV lines of the whole table. */
  lemma LinesUnderHeader(header: seq<string>, body: seq<seq<string>>)
    requires CsvLine(header) == Join(header, ",")
    ensures [Join(header, ",")] + CsvLines(body) == CsvLines([header] + body)
  {
    var table := [header] + body;
    var lines, expected := CsvLines(table), [Join(header, ",")] + CsvLines(body);
    forall i | 0 <= i < |lines|
      ensures lines[i] == expected[i]
    {
      if i > 0 {
        assert table[i] == body[i - 1];
      }
    }
  }

  /** Joining a first part in front of a non-empty rest. */
  lemma JoinCons(x: string, rest: seq<string>, sep: string)
    requires rest != []
    ensures Join([x] + rest, sep) == x + sep + Join(rest, sep)
  {
    assert ([x] + rest)[1..] == rest;
  }

  /** The saved CSV is the header line, then, when there are rows, a line
      feed and the rows' lines. */
  lemma CsvTextShape(rows: seq<SocialRow>)
    ensures rows == [] ==> CsvText(rows) == Join(Headers, ",")
    ensures rows != [] ==> CsvText(rows) == Join(Headers, ",") + "\n" + Join(CsvLines(RowFields(rows)), "\n")
  {
    if rows != [] {
      JoinCons(Join(Headers, ","), CsvLines(RowFields(rows)), "\n");
    }
  }

  /** The clipboard text is the tab-separated header line, then, when there
      are rows, a line feed and the rows' values joined by tabs. */
  lemma TsvTextShape(rows: seq<SocialRow>)
    ensures rows == [] ==> TsvText(rows) == Join(Headers, "\t")
    ensures rows != [] ==> TsvText(rows) == Join(Headers, "\t") + "\n" + Join(TsvLines(rows), "\n")
  {
    if rows != [] {
      JoinCons(Join(Headers, "\t"), TsvLines(rows), "\n");
    }
  }

  /** No tab or line feed in a value of the row. */
  predicate TabSafe(row: SocialRow) {
    forall k :: 0 <= k < |Headers| ==> '\t' !in Fields(row)[k] && '\n' !in Fields(row)[k]
  }

  lemma {:induction false} JoinAvoids(parts: seq<string>, sep: string, c: char)
    requires c !in sep
    requires forall k :: 0 <= k < |parts| ==> c !in parts[k]
    ensures c !in Join(parts, sep)
  {
    if |parts| > 1 {
      JoinAvoids(parts[1..], sep, c);
    }
  }

  /** The tab-separated header line holds no line feed and splits back
      into the header names. */
  lemma TsvHeaderSplits()
    ensures '\n' !in Join(Headers, "\t") && SplitOn(Join(Headers, "\t"), '\t') == Headers
  {
    HeadersPlain();
    JoinAvoids(Headers, "\t", '\n');
    SplitOnJoin(Headers, '\t');
  }

  /** A row without tabs or line feeds gives a line that holds no line feed
      and splits back into the row's values. */
  lemma TsvLinesSplit(rows: seq<SocialRow>)
    requires forall i :: 0 <= i < |rows| ==> TabSafe(rows[i])
    ensures forall i :: 0 <= i < |rows| ==>
      '\n' !in TsvLines(rows)[i] && SplitOn(TsvLines(rows)[i], '\t') == Fields(rows[i])
  {
    forall i | 0 <= i < |rows|
      ensures '\n' !in TsvLines(rows)[i] && SplitOn(TsvLines(rows)[i], '\t') == Fields(rows[i])
    {
      JoinAvoids(Fields(rows[i]), "\t", '\n');
      SplitOnJoin(Fields(rows[i]), '\t');
    }
  }

  /** The clipboard text splits back into the header and the rows' values
      when no value holds a tab or a line feed, since the copy does no
      escaping. */
  lemma TsvRoundTrip(rows: seq<SocialRow>)
    requires forall i :: 0 <= i < |rows| ==> TabSafe(rows[i])
    ensures |SplitOn(TsvText(rows), '\n')| == |rows| + 1
    ensures SplitOn(SplitOn(TsvText(rows), '\n')[0], '\t') == Headers
    ensures forall i :: 0 <= i < |rows| ==>
      SplitOn(SplitOn(TsvText(rows), '\n')[i + 1], '\t') == Fields(rows[i])
  {
    TsvHeaderSplits();
    TsvLinesSplit(rows);
    SplitHeadAndLines(Join(Headers, "\t"), TsvLines(rows), '\n');
  }

  /** A first line and further lines, none holding the separator, split
      back into themselves. */
  lemma SplitHeadAndLines(head: string, body: seq<string>, c: char)
    requires c !in head
    requires forall k :: 0 <= k < |body| ==> c !in body[k]
    ensures SplitOn(Join([head] + body, [c]), c) == [head] + body
    ensures forall i :: 0 <= i < |body| ==> ([head] + body)[i + 1] == body[i]
  {
    var lines := [head] + body;
    forall k | 0 <= k < |lines| ensures c !in lines[k] {
      if k > 0 {
        assert lines[k] == body[k - 1];
      }
    }
    SplitOnJoin(lines, c);
  }
}
