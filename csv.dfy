/**
 * CSV text in the quoted form of RFC 4180 section 2: every field enclosed in
 * double quotes, an embedded double quote written twice (rule 7), fields
 * separated by commas, records by line feeds. The writer is what the local
 * catalogue's export emits; the reader is its inverse, used to state that
 * the export loses nothing.
 */
module Csv {
  import opened Wrappers
  import opened Text

  /** `s.replace(/"/g, '""')`. */
  function Escape(s: string): (r: string)
    ensures |r| >= |s|
  {
    if s == [] then [] else (if s[0] == '"' then "\"\"" else [s[0]]) + Escape(s[1..])
  }

  /** `"${s.replace(/"/g, '""')}"`: the field as it appears in a record. */
  function Quote(s: string): string {
    "\"" + Escape(s) + "\""
  }

  function QuoteAll(fields: seq<string>): (r: seq<string>)
    ensures |r| == |fields|
  {
    seq(|fields|, i requires 0 <= i < |fields| => Quote(fields[i]))
  }

  /** `fields.map(quote).join(",")`. */
  function Record(fields: seq<string>): string {
    Join(QuoteAll(fields), ",")
  }

  function Records(rows: seq<seq<string>>): (r: seq<string>)
    ensures |r| == |rows|
  {
    seq(|rows|, i requires 0 <= i < |rows| => Record(rows[i]))
  }

  /** `rows.map(record).join("\n")`. */
  function Document(rows: seq<seq<string>>): string {
    Join(Records(rows), "\n")
  }

  /**
   * Reads the inside of a quoted field, up to its closing quote, turning each
   * doubled quote back into one; returns the value and what follows the
   * closing quote.
   */
  function ScanQuoted(s: string): (r: Option<(string, string)>)
    ensures r.Some? ==> |r.value.1| < |s|
  {
    if s == [] then None
    else if s[0] == '"' then
      if |s| >= 2 && s[1] == '"' then
        match ScanQuoted(s[2..])
        case None => None
        case Some((v, rest)) => Some(("\"" + v, rest))
      else Some(("", s[1..]))
    else
      match ScanQuoted(s[1..])
      case None => None
      case Some((v, rest)) => Some(([s[0]] + v, rest))
  }

  /** Reads one quoted field from the front of `s`. */
  function ParseField(s: string): (r: Option<(string, string)>)
    ensures r.Some? ==> |r.value.1| < |s|
  {
    if s != [] && s[0] == '"' then ScanQuoted(s[1..]) else None
  }

  /** Reads comma-separated quoted fields from the front of `s`, up to the end of the record. */
  function ParseRecord(s: string): (r: Option<(seq<string>, string)>)
    ensures r.Some? ==> |r.value.1| < |s| && |r.value.0| >= 1
    decreases |s|
  {
    match ParseField(s)
    case None => None
    case Some((f, rest)) =>
      if rest != [] && rest[0] == ',' then
        match ParseRecord(rest[1..])
        case None => None
        case Some((fs, rest')) => Some(([f] + fs, rest'))
      else Some(([f], rest))
  }

  /** Reads one or more records separated by line feeds; the whole input must be consumed. */
  function ParseRecords(s: string): (r: Option<seq<seq<string>>>)
    decreases |s|
  {
    match ParseRecord(s)
    case None => None
    case Some((fs, rest)) =>
      if rest == [] then Some([fs])
      else if rest[0] == '\n' then
        match ParseRecords(rest[1..])
        case None => None
        case Some(more) => Some([fs] + more)
      else None
  }

  /** Reads a whole document; the empty text holds no record. */
  function Parse(s: string): Option<seq<seq<string>>> {
    if s == [] then Some([]) else ParseRecords(s)
  }

  /** What may follow a field without being read as part of it. */
  predicate EndsField(rest: string) {
    rest == [] || rest[0] != '"'
  }

  lemma {:induction false} ScanEscaped(s: string, rest: string)
    requires EndsField(rest)
    ensures ScanQuoted(Escape(s) + "\"" + rest) == Some((s, rest))
  {
    var t := Escape(s) + "\"" + rest;
    if s == [] {
      assert t == "\"" + rest;
      assert t[1..] == rest;
    } else {
      ScanEscaped(s[1..], rest);
      var tail := Escape(s[1..]) + "\"" + rest;
      if s[0] == '"' {
        assert t == "\"\"" + tail;
        assert t[2..] == tail;
        assert "\"" + s[1..] == s;
      } else {
        assert t == [s[0]] + tail;
        assert t[1..] == tail;
        assert [s[0]] + s[1..] == s;
      }
    }
  }

  /** Rule 7 undone: reading a quoted field gives back the original text. */
  lemma FieldRoundTrip(s: string, rest: string)
    requires EndsField(rest)
    ensures ParseField(Quote(s) + rest) == Some((s, rest))
  {
    var t := Quote(s) + rest;
    assert t[1..] == Escape(s) + "\"" + rest;
    ScanEscaped(s, rest);
  }

  /** What may follow a record. */
  predicate EndsRecord(rest: string) {
    rest == [] || rest[0] == '\n'
  }

  lemma {:induction false} RecordRoundTrip(fields: seq<string>, rest: string)
    requires |fields| >= 1 && EndsRecord(rest)
    ensures ParseRecord(Record(fields) + rest) == Some((fields, rest))
  {
    var qs := QuoteAll(fields);
    if |fields| == 1 {
      assert Record(fields) == Quote(fields[0]);
      FieldRoundTrip(fields[0], rest);
      assert [fields[0]] == fields;
    } else {
      assert qs[1..] == QuoteAll(fields[1..]);
      assert Record(fields) == Quote(fields[0]) + "," + Record(fields[1..]);
      var after := "," + Record(fields[1..]) + rest;
      assert Record(fields) + rest == Quote(fields[0]) + after;
      FieldRoundTrip(fields[0], after);
      assert after[1..] == Record(fields[1..]) + rest;
      RecordRoundTrip(fields[1..], rest);
      assert [fields[0]] + fields[1..] == fields;
    }
  }

  lemma {:induction false} RecordsRoundTrip(rows: seq<seq<string>>)
    requires |rows| >= 1
    requires forall i | 0 <= i < |rows| :: |rows[i]| >= 1
    ensures ParseRecords(Document(rows)) == Some(rows)
  {
    var rs := Records(rows);
    if |rows| == 1 {
      assert Document(rows) == Record(rows[0]) + "";
      RecordRoundTrip(rows[0], "");
      assert [rows[0]] == rows;
    } else {
      assert rs[1..] == Records(rows[1..]);
      assert Document(rows) == Record(rows[0]) + ("\n" + Document(rows[1..]));
      RecordRoundTrip(rows[0], "\n" + Document(rows[1..]));
      assert ("\n" + Document(rows[1..]))[1..] == Document(rows[1..]);
      RecordsRoundTrip(rows[1..]);
      assert [rows[0]] + rows[1..] == rows;
    }
  }

  /** Reading back a written document gives the rows that were written. */
  lemma DocumentRoundTrip(rows: seq<seq<string>>)
    requires forall i | 0 <= i < |rows| :: |rows[i]| >= 1
    ensures Parse(Document(rows)) == Some(rows)
  {
    if rows == [] {
      assert Document(rows) == "";
    } else {
      assert Record(rows[0]) != [] by {
        assert |QuoteAll(rows[0])| >= 1;
        JoinStartsWith(QuoteAll(rows[0]), ",");
      }
      JoinStartsWith(Records(rows), "\n");
      RecordsRoundTrip(rows);
    }
  }

  /** A join starts with its first part. */
  lemma JoinStartsWith(parts: seq<string>, sep: string)
    requires |parts| >= 1
    ensures |Join(parts, sep)| >= |parts[0]| && Join(parts, sep)[..|parts[0]|] == parts[0]
  {
  }
}
