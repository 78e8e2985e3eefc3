/**
  Comma-separated text as Python's `csv.writer` produces it with the default "excel" dialect:
  minimal quoting following rules 6 and 7 of section 2 of RFC 4180 (a field holding a comma, a
  double quote, CR or LF is enclosed in double quotes and each embedded double quote is doubled),
  and every record ended by CR LF. The parser is the inverse used to state the round trip.
*/
module Csv {
  import opened Wrappers

  type Record = seq<string>

  const Comma: char := ','
  const Quote: char := '"'
  const CR: char := '\r'
  const LF: char := '\n'

  predicate Special(c: char)
  {
    c == Comma || c == Quote || c == CR || c == LF
  }

  predicate NeedsQuoting(field: string)
  {
    exists i :: 0 <= i < |field| && Special(field[i])
  }

  /** Each double quote written twice, every other character kept. */
  function DoubleQuotes(field: string): (r: string)
    ensures |r| >= |field|
  {
    if field == [] then []
    else (if field[0] == Quote then [Quote, Quote] else [field[0]]) + DoubleQuotes(field[1..])
  }

  /**
    A field as written: enclosed in quotes, with its quotes doubled, when it holds a separator or a
    quote, and unchanged otherwise. Followed by a comma or CR it reads back as exactly itself.
  */
  function EscapeField(field: string): (r: string)
    ensures forall rest :: EndsField(rest) ==> ParseField(r + rest) == Some((field, rest))
  {
    if NeedsQuoting(field) then
      var quoted := [Quote] + DoubleQuotes(field) + [Quote];
      assert forall rest :: EndsField(rest) ==> ParseField(quoted + rest) == Some((field, rest)) by {
        forall rest | EndsField(rest) ensures ParseField(quoted + rest) == Some((field, rest)) {
          QuotedFieldReads(field, rest);
        }
      }
      quoted
    else
      assert forall rest :: EndsField(rest) ==> ParseField(field + rest) == Some((field, rest)) by {
        forall rest | EndsField(rest) ensures ParseField(field + rest) == Some((field, rest)) {
          PlainFieldReads(field, rest);
        }
      }
      field
  }

  /**
    The fields of one record, escaped and separated by commas (no terminator). A non-empty record,
    once ended by CR LF, reads back as the same fields, whatever follows it.
  */
  function JoinFields(fields: Record): (r: string)
    ensures |fields| >= 1 ==> forall rest :: ParseRecord(r + [CR, LF] + rest) == Some((fields, rest))
  {
    if fields == [] then []
    else if |fields| == 1 then
      LastFieldReadsAll(fields[0]);
      assert [fields[0]] == fields;
      EscapeField(fields[0])
    else
      var tail := JoinFields(fields[1..]);
      NextFieldReadsAll(fields[0], tail, fields[1..]);
      assert [fields[0]] + fields[1..] == fields;
      EscapeField(fields[0]) + [Comma] + tail
  }

  /** A record as written, ended by CR LF; a non-empty one reads back as the same fields. */
  function RenderRecord(fields: Record): (r: string)
    ensures |fields| >= 1 ==> forall rest :: ParseRecord(r + rest) == Some((fields, rest))
  {
    var joined := JoinFields(fields);
    assert forall rest :: (joined + [CR, LF]) + rest == joined + [CR, LF] + rest;
    joined + [CR, LF]
  }

  /** Every record has at least one field (a record of no fields would be written as a blank line). */
  predicate NoEmptyRecord(rows: seq<Record>)
  {
    forall i :: 0 <= i < |rows| ==> |rows[i]| >= 1
  }

  /** Records written one after another; when none is empty the text reads back as the same records. */
  function RenderTable(rows: seq<Record>): (r: string)
    ensures NoEmptyRecord(rows) ==> ParseTable(r) == Some(rows)
  {
    if rows == [] then []
    else
      var tail := RenderTable(rows[1..]);
      assert NoEmptyRecord(rows) ==> ParseTable(RenderRecord(rows[0]) + tail) == Some(rows) by {
        if NoEmptyRecord(rows) {
          assert NoEmptyRecord(rows[1..]) by {
            forall i | 0 <= i < |rows[1..]| ensures |rows[1..][i]| >= 1 {
              assert rows[1..][i] == rows[i + 1];
            }
          }
          RecordThenTable(rows[0], rows[1..], tail);
          assert [rows[0]] + rows[1..] == rows;
        }
      }
      RenderRecord(rows[0]) + tail
  }

  // ---------------------------------------------------------------------------------------------
  // Reading the text back

  /** The longest prefix free of separators and quotes, and what follows it. */
  function ScanPlain(s: string): (r: (string, string))
    ensures r.0 + r.1 == s
    ensures !NeedsQuoting(r.0)
  {
    if s == [] || Special(s[0]) then ([], s)
    else
      var (field, rest) := ScanPlain(s[1..]);
      var plain := [s[0]] + field;
      assert forall i :: 0 <= i < |plain| ==> !Special(plain[i]) by {
        forall i | 0 <= i < |plain| ensures !Special(plain[i]) {
          if i > 0 {
            assert plain[i] == field[i - 1];
          }
        }
      }
      assert plain + rest == s by {
        assert s == [s[0]] + s[1..];
      }
      (plain, rest)
  }

  /** The body of a quoted field, starting just after its opening quote, up to its closing quote. */
  function ScanQuoted(s: string): (r: Option<(string, string)>)
    ensures r.Some? ==> |r.value.1| < |s|
  {
    if s == [] then None
    else if s[0] == Quote then
      if |s| >= 2 && s[1] == Quote then
        match ScanQuoted(s[2..])
        case None => None
        case Some((field, rest)) => Some(([Quote] + field, rest))
      else Some(([], s[1..]))
    else
      match ScanQuoted(s[1..])
      case None => None
      case Some((field, rest)) => Some(([s[0]] + field, rest))
  }

  function ParseField(s: string): (r: Option<(string, string)>)
    ensures r.Some? ==> |r.value.1| <= |s|
  {
    if s != [] && s[0] == Quote then ScanQuoted(s[1..]) else Some(ScanPlain(s))
  }

  /** One record: fields separated by commas, ended by CR LF. */
  function ParseRecord(s: string): (r: Option<(Record, string)>)
    ensures r.Some? ==> |r.value.0| >= 1 && |r.value.1| < |s|
    decreases |s|
  {
    match ParseField(s)
    case None => None
    case Some((field, rest)) =>
      if |rest| >= 1 && rest[0] == Comma then
        match ParseRecord(rest[1..])
        case None => None
        case Some((fields, tail)) => Some(([field] + fields, tail))
      else if |rest| >= 2 && rest[0] == CR && rest[1] == LF then Some(([field], rest[2..]))
      else None
  }

  function ParseTable(s: string): (r: Option<seq<Record>>)
    decreases |s|
  {
    if s == [] then Some([])
    else
      match ParseRecord(s)
      case None => None
      case Some((row, rest)) =>
        match ParseTable(rest)
        case None => None
        case Some(rows) => Some([row] + rows)
  }

  // ---------------------------------------------------------------------------------------------
  // Round trip

  predicate EndsField(rest: string)
  {
    |rest| >= 1 && (rest[0] == Comma || rest[0] == CR)
  }

  lemma {:induction false} ScanPlainOf(field: string, rest: string)
    requires !NeedsQuoting(field)
    requires rest == [] || Special(rest[0])
    ensures ScanPlain(field + rest) == (field, rest)
  {
    if field != [] {
      assert !Special(field[0]);
      assert (field + rest)[1..] == field[1..] + rest;
      assert !NeedsQuoting(field[1..]) by {
        forall i | 0 <= i < |field[1..]| ensures !Special(field[1..][i]) {
          assert field[1..][i] == field[i + 1];
        }
      }
      ScanPlainOf(field[1..], rest);
      assert (field + rest)[0] == field[0];
      assert [field[0]] + field[1..] == field;
    } else {
      assert field + rest == rest;
    }
  }

  lemma {:induction false} ScanQuotedOf(field: string, rest: string)
    requires rest == [] || rest[0] != Quote
    ensures ScanQuoted(DoubleQuotes(field) + [Quote] + rest) == Some((field, rest))
  {
    var s := DoubleQuotes(field) + [Quote] + rest;
    if field == [] {
      assert s == [Quote] + rest;
      assert s[1..] == rest;
    } else if field[0] == Quote {
      assert s == [Quote, Quote] + (DoubleQuotes(field[1..]) + [Quote] + rest);
      assert s[2..] == DoubleQuotes(field[1..]) + [Quote] + rest;
      ScanQuotedOf(field[1..], rest);
      assert [Quote] + field[1..] == field;
    } else {
      assert s == [field[0]] + (DoubleQuotes(field[1..]) + [Quote] + rest);
      assert s[1..] == DoubleQuotes(field[1..]) + [Quote] + rest;
      ScanQuotedOf(field[1..], rest);
      assert [field[0]] + field[1..] == field;
    }
  }

  lemma QuotedFieldReads(field: string, rest: string)
    requires rest == [] || rest[0] != Quote
    ensures ParseField([Quote] + DoubleQuotes(field) + [Quote] + rest) == Some((field, rest))
  {
    var body := DoubleQuotes(field) + [Quote] + rest;
    assert [Quote] + DoubleQuotes(field) + [Quote] + rest == [Quote] + body;
    assert ([Quote] + body)[1..] == body;
    ScanQuotedOf(field, rest);
  }

  lemma PlainFieldReads(field: string, rest: string)
    requires !NeedsQuoting(field)
    requires EndsField(rest)
    ensures ParseField(field + rest) == Some((field, rest))
  {
    if field != [] {
      assert field[0] != Quote;
    }
    ScanPlainOf(field, rest);
  }

  /** A written field ended by CR LF is a whole record of one field. */
  lemma LastFieldReads(field: string, rest: string)
    ensures ParseRecord(EscapeField(field) + [CR, LF] + rest) == Some(([field], rest))
  {
    var e := EscapeField(field);
    var after := [CR, LF] + rest;
    assert e + [CR, LF] + rest == e + after;
    assert EndsField(after) && after[2..] == rest;
    assert ParseField(e + after) == Some((field, after));
  }

  /** A written field, a comma, then a record: the field heads that record. */
  lemma NextFieldReads(field: string, tail: string, fields: Record, rest: string)
    requires ParseRecord(tail + [CR, LF] + rest) == Some((fields, rest))
    ensures ParseRecord(EscapeField(field) + [Comma] + tail + [CR, LF] + rest) == Some(([field] + fields, rest))
  {
    Regroup(EscapeField(field), tail, rest);
    FieldThenRecord(field, tail + [CR, LF] + rest, fields, rest);
  }

  lemma Regroup(e: string, tail: string, rest: string)
    ensures e + [Comma] + tail + [CR, LF] + rest == e + ([Comma] + (tail + [CR, LF] + rest))
  {
  }

  lemma FieldThenRecord(field: string, more: string, fields: Record, rest: string)
    requires ParseRecord(more) == Some((fields, rest))
    ensures ParseRecord(EscapeField(field) + ([Comma] + more)) == Some(([field] + fields, rest))
  {
    var after := [Comma] + more;
    assert EndsField(after) && after[1..] == more;
    assert ParseField(EscapeField(field) + after) == Some((field, after));
  }

  lemma LastFieldReadsAll(field: string)
    ensures forall rest :: ParseRecord(EscapeField(field) + [CR, LF] + rest) == Some(([field], rest))
  {
    forall rest ensures ParseRecord(EscapeField(field) + [CR, LF] + rest) == Some(([field], rest)) {
      LastFieldReads(field, rest);
    }
  }

  lemma NextFieldReadsAll(field: string, tail: string, fields: Record)
    requires forall rest :: ParseRecord(tail + [CR, LF] + rest) == Some((fields, rest))
    ensures forall rest ::
      ParseRecord(EscapeField(field) + [Comma] + tail + [CR, LF] + rest) == Some(([field] + fields, rest))
  {
    forall rest
      ensures ParseRecord(EscapeField(field) + [Comma] + tail + [CR, LF] + rest) == Some(([field] + fields, rest))
    {
      NextFieldReads(field, tail, fields, rest);
    }
  }

  /** A written record followed by a table: the record heads that table. */
  lemma RecordThenTable(row: Record, rows: seq<Record>, tail: string)
    requires |row| >= 1
    requires ParseTable(tail) == Some(rows)
    ensures ParseTable(RenderRecord(row) + tail) == Some([row] + rows)
  {
    assert ParseRecord(RenderRecord(row) + tail) == Some((row, tail));
  }
}
