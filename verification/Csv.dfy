/**
 The CSV export of the journal, and a reference reader for section 2 of RFC 4180 with ';' as separator.
 */
module Csv {
  import opened Ledger

  // ---------- writing ----------

  predicate NeedsQuotes(value: string) {
    exists i :: 0 <= i < |value| && value[i] in ";\"\r\n"
  }

  function DoubleQuotes(value: string): string {
    if value == "" then ""
    else (if value[0] == '"' then "\"\"" else [value[0]]) + DoubleQuotes(value[1..])
  }

  function Escape(value: string): string {
    if NeedsQuotes(value) then "\"" + DoubleQuotes(value) + "\"" else value
  }

  function FormatRow(values: seq<string>): string {
    if values == [] then ""
    else if |values| == 1 then Escape(values[0])
    else Escape(values[0]) + ";" + FormatRow(values[1..])
  }

  function Format(rows: seq<seq<string>>): string {
    if rows == [] then ""
    else if |rows| == 1 then FormatRow(rows[0])
    else FormatRow(rows[0]) + "\r\n" + Format(rows[1..])
  }

  // ---------- reading ----------

  datatype Field = Field(value: string, rest: string) | Malformed

  function Prepend(c: char, f: Field): (r: Field)
    ensures f.Field? ==> r == Field([c] + f.value, f.rest)
  {
    if f.Field? then Field([c] + f.value, f.rest) else Malformed
  }

  /** The rest of a quoted field, after its opening quote; two quotes stand for one. */
  function ReadQuoted(s: string): (f: Field)
    ensures f.Field? ==> |f.rest| < |s|
  {
    if s == "" then Malformed
    else if s[0] != '"' then Prepend(s[0], ReadQuoted(s[1..]))
    else if |s| > 1 && s[1] == '"' then Prepend('"', ReadQuoted(s[2..]))
    else Field("", s[1..])
  }

  /** A field without quotes, up to a separator or a line break. */
  function ReadPlain(s: string): (f: Field)
    ensures f.Field? ==> |f.rest| <= |s|
  {
    if s == "" || s[0] == ';' || s[0] == '\r' || s[0] == '\n' then Field("", s)
    else if s[0] == '"' then Malformed
    else Prepend(s[0], ReadPlain(s[1..]))
  }

  function ReadField(s: string): (f: Field)
    ensures f.Field? ==> |f.rest| <= |s|
  {
    if s != "" && s[0] == '"' then ReadQuoted(s[1..]) else ReadPlain(s)
  }

  /** All records of a file; a record has at least one field. */
  function Read(s: string): (r: Option<seq<seq<string>>>)
    ensures r.Some? ==> |r.value| > 0 && |r.value[0]| > 0
    decreases |s|
  {
    var f := ReadField(s);
    if f.Malformed? then None
    else if f.rest == "" then Some([[f.value]])
    else if f.rest[0] == ';' then
      var rows := Read(f.rest[1..]);
      if rows.None? then None else Some([[f.value] + rows.value[0]] + rows.value[1..])
    else if |f.rest| >= 2 && f.rest[..2] == "\r\n" then
      var rows := Read(f.rest[2..]);
      if rows.None? then None else Some([[f.value]] + rows.value)
    else None
  }

  // ---------- round trip ----------

  /** What may follow a field. */
  predicate EndsField(tail: string) {
    tail == "" || tail[0] == ';' || (|tail| >= 2 && tail[..2] == "\r\n")
  }

  lemma {:induction false} QuotedBack(value: string, tail: string)
    requires EndsField(tail)
    ensures ReadQuoted(DoubleQuotes(value) + "\"" + tail) == Field(value, tail)
  {
    var s := DoubleQuotes(value) + "\"" + tail;
    if value == "" {
      assert s == "\"" + tail;
      assert s[1..] == tail;
    } else if value[0] == '"' {
      assert s == "\"\"" + (DoubleQuotes(value[1..]) + "\"" + tail);
      assert s[2..] == DoubleQuotes(value[1..]) + "\"" + tail;
      QuotedBack(value[1..], tail);
      assert value == ['"'] + value[1..];
    } else {
      assert s == [value[0]] + (DoubleQuotes(value[1..]) + "\"" + tail);
      assert s[1..] == DoubleQuotes(value[1..]) + "\"" + tail;
      QuotedBack(value[1..], tail);
      assert value == [value[0]] + value[1..];
    }
  }

  lemma {:induction false} PlainBack(value: string, tail: string)
    requires !NeedsQuotes(value) && EndsField(tail)
    ensures ReadPlain(value + tail) == Field(value, tail)
  {
    if value == "" {
      assert value + tail == tail;
    } else {
      assert value[0] !in ";\"\r\n";
      assert !NeedsQuotes(value[1..]) by {
        forall i | 0 <= i < |value[1..]| ensures value[1..][i] !in ";\"\r\n" {
          assert value[1..][i] == value[i + 1];
        }
      }
      PlainBack(value[1..], tail);
      assert (value + tail)[1..] == value[1..] + tail;
      assert value == [value[0]] + value[1..];
    }
  }

  lemma FieldBack(value: string, tail: string)
    requires EndsField(tail)
    ensures ReadField(Escape(value) + tail) == Field(value, tail)
  {
    hide ReadQuoted, ReadPlain, DoubleQuotes;
    if NeedsQuotes(value) {
      var s := Escape(value) + tail;
      assert s[1..] == DoubleQuotes(value) + "\"" + tail;
      QuotedBack(value, tail);
    } else {
      PlainBack(value, tail);
      assert value != "" ==> value[0] !in ";\"\r\n";
    }
  }

  /** A field is written as it stands exactly when it holds no separator, quote or line break. */
  lemma WrittenAsIs(value: string)
    ensures Escape(value) == value <==> forall i :: 0 <= i < |value| ==> value[i] != ';' && value[i] != '"' && value[i] != '\r' && value[i] != '\n'
  {
    var special := ";\"\r\n";
    assert special[0] == ';' && special[1] == '"' && special[2] == '\r' && special[3] == '\n';
    assert |Escape(value)| == |value| ==> !NeedsQuotes(value) by { NeverShorter(value); }
  }

  lemma {:induction false} NeverShorter(value: string)
    ensures |DoubleQuotes(value)| >= |value|
  {
    if value != "" { NeverShorter(value[1..]); }
  }

  predicate AllHaveFields(rows: seq<seq<string>>) {
    rows != [] && forall i :: 0 <= i < |rows| ==> rows[i] != []
  }

  lemma ReadSeparator(value: string, more: string)
    requires Read(more).Some?
    ensures Read(Escape(value) + (";" + more)) == Some([[value] + Read(more).value[0]] + Read(more).value[1..])
  {
    var tail := ";" + more;
    FieldBack(value, tail);
    assert tail[1..] == more;
    hide ReadField, Escape;
  }

  lemma ReadLineBreak(value: string, more: string)
    requires Read(more).Some?
    ensures Read(Escape(value) + ("\r\n" + more)) == Some([[value]] + Read(more).value)
  {
    var tail := "\r\n" + more;
    FieldBack(value, tail);
    assert tail[..2] == "\r\n" && tail[2..] == more;
    hide ReadField, Escape;
  }

  lemma ReadLast(value: string)
    ensures Read(Escape(value)) == Some([[value]])
  {
    FieldBack(value, "");
    assert Escape(value) + "" == Escape(value);
    hide ReadField, Escape;
  }

  /** Reading what was written gives back the records, whatever their fields hold. */
  lemma {:induction false} ReadBack(rows: seq<seq<string>>)
    requires AllHaveFields(rows)
    ensures Read(Format(rows)) == Some(rows)
    decreases |rows|, |rows[0]|
  {
    hide Read, Escape;
    var row, more := rows[0], rows[1..];
    if |row| > 1 {
      var shorter := [row[1..]] + more;
      ReadBack(shorter);
      FirstField(rows);
      ReadSeparator(row[0], Format(shorter));
      assert [row[0]] + row[1..] == row;
      assert [row] + more == rows;
    } else if more != [] {
      ReadBack(more);
      assert Format(rows) == Escape(row[0]) + "\r\n" + Format(more);
      assert Format(rows) == Escape(row[0]) + ("\r\n" + Format(more));
      ReadLineBreak(row[0], Format(more));
      assert row == [row[0]] && [row] + more == rows;
    } else {
      ReadLast(row[0]);
      assert row == [row[0]] && rows == [row];
    }
  }

  lemma FirstField(rows: seq<seq<string>>)
    requires AllHaveFields(rows) && |rows[0]| > 1
    ensures Format(rows) == Escape(rows[0][0]) + (";" + Format([rows[0][1..]] + rows[1..]))
  {
    var row, more := rows[0], rows[1..];
    var shorter := [row[1..]] + more;
    assert shorter[0] == row[1..] && shorter[1..] == more;
    var first, others, rest := Escape(row[0]), FormatRow(row[1..]), Format(more);
    assert FormatRow(row) == first + ";" + others;
    hide Escape, FormatRow;
    if more == [] {
      assert Format(shorter) == others && Format(rows) == FormatRow(row);
      Regroup(first, ";", others, "", "");
    } else {
      assert Format(shorter) == others + "\r\n" + rest && Format(rows) == FormatRow(row) + "\r\n" + rest;
      hide Format;
      Regroup(first, ";", others, "\r\n", rest);
    }
  }

  lemma Regroup(a: string, b: string, c: string, d: string, e: string)
    ensures a + b + c + d + e == a + (b + (c + d + e))
    ensures a + b + c == a + (b + c)
  {
  }

  /** Two different tables are never written alike. */
  lemma FormatIsInjective(a: seq<seq<string>>, b: seq<seq<string>>)
    requires AllHaveFields(a) && AllHaveFields(b) && Format(a) == Format(b)
    ensures a == b
  {
    ReadBack(a);
    ReadBack(b);
  }
}
