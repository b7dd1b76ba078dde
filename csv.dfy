/**
 * The text `csv.DictWriter` produces with Python's default `excel`
 * dialect: fields joined by `,`, each row ended by `\r\n`, and minimal
 * quoting — a field holding a comma, a double quote, a carriage return or
 * a line feed is enclosed in double quotes with every double quote inside
 * it doubled (section 2 of RFC 4180). A reader for that format is the
 * writer's partner: reading what was written gives the rows back.
 */
module Csv {
  import opened Options

  /** A character that forces a field into quotes. */
  predicate IsSpecial(c: char) {
    c == ',' || c == '"' || c == '\r' || c == '\n'
  }

  /** A field written as it is. */
  predicate IsPlain(f: string) {
    forall k :: 0 <= k < |f| ==> !IsSpecial(f[k])
  }

  /** The field's characters with every double quote doubled. */
  function Escape(f: string): (r: string)
    ensures |r| >= |f|
  {
    if f == [] then []
    else (if f[0] == '"' then "\"\"" else [f[0]]) + Escape(f[1..])
  }

  function EncodeField(f: string): string {
    if IsPlain(f) then f else "\"" + Escape(f) + "\""
  }

  /** The fields of one row joined by commas. */
  function EncodeFields(fields: seq<string>): string {
    if fields == [] then []
    else if |fields| == 1 then EncodeField(fields[0])
    else EncodeField(fields[0]) + "," + EncodeFields(fields[1..])
  }

  /**
   * One row as `writer.writerow` writes it. A row of a single empty field
   * would otherwise be a blank line, so the writer quotes that field.
   */
  function EncodeRow(fields: seq<string>): string {
    if fields == [[]] then "\"\"\r\n" else EncodeFields(fields) + "\r\n"
  }

  function EncodeTable(rows: seq<seq<string>>): string {
    if rows == [] then [] else EncodeRow(rows[0]) + EncodeTable(rows[1..])
  }

  /** Writing one more row appends its text. */
  lemma {:induction false} EncodeTableSnoc(rows: seq<seq<string>>, row: seq<string>)
    ensures EncodeTable(rows + [row]) == EncodeTable(rows) + EncodeRow(row)
  {
    if rows != [] {
      assert (rows + [row])[1..] == rows[1..] + [row];
      EncodeTableSnoc(rows[1..], row);
    }
  }

  // ---- Reading ----

  function Prepend(c: char, p: Option<(string, string)>): (r: Option<(string, string)>)
    ensures r.Some? <==> p.Some?
    ensures r.Some? ==> r.value == ([c] + p.value.0, p.value.1)
  {
    match p
    case None => None
    case Some((f, rest)) => Some(([c] + f, rest))
  }

  /**
   * The rest of a quoted field, after its opening quote: a doubled quote
   * stands for one quote, a lone quote closes the field. None when the
   * text ends before the closing quote.
   */
  function ReadQuoted(s: string): (r: Option<(string, string)>)
    ensures r.Some? ==> |r.value.1| < |s|
  {
    if s == [] then None
    else if s[0] == '"' then
      if |s| > 1 && s[1] == '"' then Prepend('"', ReadQuoted(s[2..])) else Some(([], s[1..]))
    else Prepend(s[0], ReadQuoted(s[1..]))
  }

  /** An unquoted field runs to the next comma or line break. */
  function ReadPlain(s: string): (r: (string, string))
    ensures |r.1| <= |s|
  {
    if s == [] || s[0] == ',' || s[0] == '\r' || s[0] == '\n' then ([], s)
    else var (f, rest) := ReadPlain(s[1..]); ([s[0]] + f, rest)
  }

  /** One field and the text after it. */
  function ReadField(s: string): (r: Option<(string, string)>)
    ensures r.Some? ==> |r.value.1| <= |s|
  {
    if s != [] && s[0] == '"' then ReadQuoted(s[1..]) else Some(ReadPlain(s))
  }

  /** One row: fields separated by commas, up to a line break or the end of the text. */
  function ReadRow(s: string): (r: Option<(seq<string>, string)>)
    ensures r.Some? ==> |r.value.1| <= |s| && (s != [] ==> |r.value.1| < |s|)
    decreases |s|
  {
    match ReadField(s)
    case None => None
    case Some((f, rest)) =>
      if rest == [] then Some(([f], []))
      else if rest[0] == ',' then
        match ReadRow(rest[1..])
        case None => None
        case Some((fields, after)) => Some(([f] + fields, after))
      else if |rest| >= 2 && rest[0] == '\r' && rest[1] == '\n' then Some(([f], rest[2..]))
      else if rest[0] == '\r' || rest[0] == '\n' then Some(([f], rest[1..]))
      else None
  }

  /** All rows of a document; None when some field is malformed. */
  function ReadTable(s: string): Option<seq<seq<string>>>
    decreases |s|
  {
    if s == [] then Some([])
    else
      match ReadRow(s)
      case None => None
      case Some((row, rest)) =>
        match ReadTable(rest)
        case None => None
        case Some(rows) => Some([row] + rows)
  }

  // ---- Reading back what was written ----

  /** A text that may follow a field: the end, a comma or a line break. */
  predicate FieldEnds(rest: string) {
    rest == [] || rest[0] == ',' || rest[0] == '\r' || rest[0] == '\n'
  }

  lemma {:induction false} ReadPlainOf(f: string, rest: string)
    requires IsPlain(f) && FieldEnds(rest)
    ensures ReadPlain(f + rest) == (f, rest)
  {
    if f != [] {
      assert (f + rest)[0] == f[0] && !IsSpecial(f[0]);
      assert (f + rest)[1..] == f[1..] + rest;
      assert IsPlain(f[1..]) by {
        forall k | 0 <= k < |f| - 1 ensures !IsSpecial(f[1..][k]) {
          assert f[1..][k] == f[k + 1];
        }
      }
      ReadPlainOf(f[1..], rest);
      assert [f[0]] + f[1..] == f;
    } else {
      assert f + rest == rest;
    }
  }

  lemma {:induction false} ReadQuotedOf(f: string, rest: string)
    requires rest == [] || rest[0] != '"'
    ensures ReadQuoted(Escape(f) + "\"" + rest) == Some((f, rest))
  {
    var s := Escape(f) + "\"" + rest;
    if f == [] {
      assert s == "\"" + rest;
      assert s[1..] == rest;
    } else {
      var tail := Escape(f[1..]) + "\"" + rest;
      ReadQuotedOf(f[1..], rest);
      assert [f[0]] + f[1..] == f;
      if f[0] == '"' {
        assert s == "\"\"" + tail;
        assert s[0] == '"' && s[1] == '"';
        assert s[2..] == tail;
      } else {
        assert s == [f[0]] + tail;
        assert s[0] == f[0];
        assert s[1..] == tail;
      }
    }
  }

  lemma ReadFieldOf(f: string, rest: string)
    requires FieldEnds(rest)
    ensures ReadField(EncodeField(f) + rest) == Some((f, rest))
  {
    if IsPlain(f) {
      ReadPlainFieldOf(f, rest);
    } else {
      ReadQuotedFieldOf(f, rest);
    }
  }

  lemma ReadPlainFieldOf(f: string, rest: string)
    requires IsPlain(f) && FieldEnds(rest)
    ensures ReadField(f + rest) == Some((f, rest))
  {
    ReadPlainOf(f, rest);
    if f != [] {
      assert (f + rest)[0] == f[0] && !IsSpecial(f[0]);
    } else {
      assert f + rest == rest;
    }
  }

  lemma ReadQuotedFieldOf(f: string, rest: string)
    requires FieldEnds(rest)
    ensures ReadField("\"" + Escape(f) + "\"" + rest) == Some((f, rest))
  {
    var s := "\"" + Escape(f) + "\"" + rest;
    ReadQuotedOf(f, rest);
    assert s == "\"" + (Escape(f) + "\"" + rest);
    assert s[1..] == Escape(f) + "\"" + rest;
  }

  lemma ReadRowOf(fields: seq<string>, rest: string)
    requires fields != []
    ensures ReadRow(EncodeRow(fields) + rest) == Some((fields, rest))
  {
    if fields == [[]] {
      ReadQuotedEmpty(rest);
    } else {
      ReadFieldsOf(fields, rest);
    }
  }

  /** The quoted lone empty field reads back as one empty field. */
  lemma ReadQuotedEmpty(rest: string)
    ensures ReadRow("\"\"\r\n" + rest) == Some(([[]], rest))
  {
    var s := "\"\"\r\n" + rest;
    var after := "\r\n" + rest;
    assert s[1..] == "\"" + after;
    assert ("\"" + after)[1..] == after;
    assert ReadField(s) == Some(([], after));
    assert after[2..] == rest;
  }

  /** The comma-joined fields followed by a line end read back as those fields. */
  lemma {:induction false} ReadFieldsOf(fields: seq<string>, rest: string)
    requires fields != []
    ensures ReadRow(EncodeFields(fields) + "\r\n" + rest) == Some((fields, rest))
    decreases |fields|
  {
    if |fields| == 1 {
      ReadLastField(fields[0], rest);
      assert [fields[0]] == fields;
    } else {
      ReadFieldsOf(fields[1..], rest);
      ReadFieldBeforeComma(fields[0], fields[1..], rest);
      assert [fields[0]] + fields[1..] == fields;
    }
  }

  lemma ReadLastField(f: string, rest: string)
    ensures ReadRow(EncodeFields([f]) + "\r\n" + rest) == Some(([f], rest))
  {
    var tail := "\r\n" + rest;
    ReadFieldOf(f, tail);
    assert EncodeFields([f]) + "\r\n" + rest == EncodeField(f) + tail;
    assert tail[0] == '\r' && tail[1] == '\n' && tail[2..] == rest;
  }

  lemma ReadFieldBeforeComma(f: string, fields: seq<string>, rest: string)
    requires fields != []
    requires ReadRow(EncodeFields(fields) + "\r\n" + rest) == Some((fields, rest))
    ensures ReadRow(EncodeFields([f] + fields) + "\r\n" + rest) == Some(([f] + fields, rest))
  {
    var more := EncodeFields(fields) + "\r\n" + rest;
    var tail := "," + more;
    ReadFieldOf(f, tail);
    EncodeFieldsCons(f, fields, rest);
    assert tail[1..] == more;
  }

  lemma EncodeFieldsCons(f: string, fields: seq<string>, rest: string)
    requires fields != []
    ensures EncodeFields([f] + fields) + "\r\n" + rest == EncodeField(f) + ("," + (EncodeFields(fields) + "\r\n" + rest))
  {
    var all := [f] + fields;
    assert all[0] == f && all[1..] == fields && |all| > 1;
    var head, others := EncodeField(f), EncodeFields(fields);
    assert EncodeFields(all) == head + "," + others;
    Regroup(head, ",", others, "\r\n", rest);
  }

  lemma Regroup(a: string, b: string, c: string, d: string, e: string)
    ensures (a + b + c) + d + e == a + (b + ((c + d) + e))
  {
  }

  /** Reading a written table gives its rows back, provided no row is empty. */
  lemma {:induction false} ReadTableOf(rows: seq<seq<string>>)
    requires forall k :: 0 <= k < |rows| ==> rows[k] != []
    ensures ReadTable(EncodeTable(rows)) == Some(rows)
  {
    if rows != [] {
      ReadRowOf(rows[0], EncodeTable(rows[1..]));
      ReadTableOf(rows[1..]);
      assert [rows[0]] + rows[1..] == rows;
    }
  }

  /** Quoting happens exactly when the field holds a special character. */
  lemma QuotedExactlyWhenNeeded(f: string)
    ensures EncodeField(f) == f <==> IsPlain(f)
  {
    if !IsPlain(f) {
      assert |EncodeField(f)| >= |f| + 2;
    }
  }
}
