/**
 Text for a PDF file: normalised to printable ASCII, escaped as a literal string, and written one byte a
 character.
 */
module PdfText {

  type byte = x: int | 0 <= x < 256

  // ---------- strings as bytes ----------

  predicate IsAscii(s: string) {
    forall i :: 0 <= i < |s| ==> s[i] as int < 128
  }

  /** The bytes that the encoding `binary` writes for a character: the low byte of each UTF-16 unit. */
  function UnitBytes(c: char): (r: seq<byte>) {
    var n := c as int;
    if n < 0x10000 then [n % 256] else [((n - 0x10000) / 1024) % 256, (n - 0x10000) % 256]
  }

  function Binary(s: string): (r: seq<byte>)
  {
    if s == "" then [] else Binary(s[..|s| - 1]) + UnitBytes(s[|s| - 1])
  }

  /** How many bytes UTF-8 takes for a character. */
  function Utf8Size(c: char): nat {
    var n := c as int;
    if n < 0x80 then 1 else if n < 0x800 then 2 else if n < 0x10000 then 3 else 4
  }

  function Utf8Length(s: string): nat {
    if s == "" then 0 else Utf8Length(s[..|s| - 1]) + Utf8Size(s[|s| - 1])
  }

  lemma {:induction false} BinaryOfAscii(s: string)
    requires IsAscii(s)
    ensures |Binary(s)| == |s| && forall i :: 0 <= i < |s| ==> Binary(s)[i] == s[i] as int
  {
    if s != "" { BinaryOfAscii(s[..|s| - 1]); }
  }

  /** The length counted in UTF-8 is the length written exactly for ASCII text. */
  lemma {:induction false} LengthsAgreeOnAscii(s: string)
    ensures |Binary(s)| <= Utf8Length(s)
    ensures Utf8Length(s) == |Binary(s)| <==> IsAscii(s)
  {
    if s != "" {
      var front := s[..|s| - 1];
      LengthsAgreeOnAscii(front);
      assert IsAscii(s) <==> IsAscii(front) && s[|s| - 1] as int < 128 by {
        if IsAscii(front) && s[|s| - 1] as int < 128 {
          forall i | 0 <= i < |s| ensures s[i] as int < 128 {
            if i < |front| { assert front[i] == s[i]; }
          }
        }
      }
    }
  }

  lemma {:induction false} BinaryConcat(a: string, b: string)
    ensures Binary(a + b) == Binary(a) + Binary(b)
  {
    if b == "" {
      assert a + b == a;
    } else {
      assert (a + b)[..|a + b| - 1] == a + b[..|b| - 1];
      BinaryConcat(a, b[..|b| - 1]);
    }
  }

  // ---------- normalising and escaping ----------

  /** Combining marks go, every UTF-16 unit of anything else outside printable ASCII becomes a question mark; the
      argument is the text after canonical decomposition. */
  function NormalizePdfText(decomposed: string): string {
    if decomposed == "" then ""
    else
      var n := decomposed[0] as int;
      (if 0x300 <= n <= 0x36f then "" else if 0x20 <= n <= 0x7e then [decomposed[0]] else if n < 0x10000 then "?" else "??")
      + NormalizePdfText(decomposed[1..])
  }

  function EscapePdfText(value: string): string {
    if value == "" then ""
    else (if value[0] in "\\()" then ['\\', value[0]] else [value[0]]) + EscapePdfText(value[1..])
  }

  /** Character by character: combining marks go, printable ASCII stays, and anything else becomes a question mark, or two if it
      takes two UTF-16 units. */
  lemma {:induction false} NormalizedOneByOne(decomposed: string, c: char)
    ensures NormalizePdfText(decomposed + [c])
         == NormalizePdfText(decomposed) + if '\U{0300}' <= c <= '\U{036f}' then "" else if ' ' <= c <= '~' then [c] else if c <= '\U{ffff}' then "?" else "??"
  {
    if decomposed == "" {
      assert decomposed + [c] == [c] && [c][1..] == "";
    } else {
      assert (decomposed + [c])[1..] == decomposed[1..] + [c];
      NormalizedOneByOne(decomposed[1..], c);
    }
  }

  /** Character by character: a backslash stands before each backslash and parenthesis, and before nothing else. */
  lemma {:induction false} EscapedOneByOne(value: string, c: char)
    ensures EscapePdfText(value + [c]) == EscapePdfText(value) + if c == '\\' || c == '(' || c == ')' then ['\\', c] else [c]
  {
    if value == "" {
      assert value + [c] == [c] && [c][1..] == "";
      var special := "\\()";
      assert special[0] == '\\' && special[1] == '(' && special[2] == ')';
    } else {
      assert (value + [c])[1..] == value[1..] + [c];
      EscapedOneByOne(value[1..], c);
    }
  }

  function PdfLiteral(decomposed: string): string {
    "(" + EscapePdfText(NormalizePdfText(decomposed)) + ")"
  }

  predicate Printable(s: string) {
    forall i :: 0 <= i < |s| ==> 0x20 <= s[i] as int <= 0x7e
  }

  lemma {:induction false} NormalizedIsPrintable(decomposed: string)
    ensures Printable(NormalizePdfText(decomposed))
  {
    if decomposed != "" { NormalizedIsPrintable(decomposed[1..]); }
  }

  lemma {:induction false} PrintableKept(text: string)
    requires Printable(text)
    ensures NormalizePdfText(text) == text
  {
    if text != "" {
      assert Printable(text[1..]) by {
        forall i | 0 <= i < |text[1..]| ensures 0x20 <= text[1..][i] as int <= 0x7e { assert text[1..][i] == text[i + 1]; }
      }
      PrintableKept(text[1..]);
      assert 0x20 <= text[0] as int <= 0x7e;
      assert text == [text[0]] + text[1..];
    }
  }

  /** Printable ASCII text, and no other, comes out as it went in. */
  lemma PrintableStays(text: string)
    ensures NormalizePdfText(text) == text <==> forall i :: 0 <= i < |text| ==> ' ' <= text[i] <= '~'
  {
    hide NormalizePdfText;
    NormalizedIsPrintable(text);
    if Printable(text) { PrintableKept(text); }
  }

  lemma {:induction false} EscapedIsPrintable(value: string)
    requires Printable(value)
    ensures Printable(EscapePdfText(value))
  {
    if value != "" {
      assert Printable(value[1..]) by {
        forall i | 0 <= i < |value[1..]| ensures 0x20 <= value[1..][i] as int <= 0x7e { assert value[1..][i] == value[i + 1]; }
      }
      EscapedIsPrintable(value[1..]);
      assert 0x20 <= value[0] as int <= 0x7e;
    }
  }

  /** Whatever the text, its literal is ASCII. */
  lemma LiteralIsAscii(decomposed: string)
    ensures IsAscii(PdfLiteral(decomposed))
  {
    NormalizedIsPrintable(decomposed);
    EscapedIsPrintable(NormalizePdfText(decomposed));
  }

  // ---------- reading a literal string, ISO 32000-1 section 7.3.4.2 ----------

  datatype Literal = Literal(text: string, rest: string, closed: bool)

  /** Text up to the closing parenthesis that balances the opening one. */
  function ReadLiteral(s: string, depth: nat): Literal {
    if s == "" then Literal("", "", false)
    else if s[0] == '\\' && |s| > 1 then
      var l := ReadLiteral(s[2..], depth);
      Literal([s[1]] + l.text, l.rest, l.closed)
    else if s[0] == ')' && depth == 0 then Literal("", s[1..], true)
    else
      var l := ReadLiteral(s[1..], if s[0] == '(' then depth + 1 else if s[0] == ')' && depth > 0 then depth - 1 else depth);
      Literal([s[0]] + l.text, l.rest, l.closed)
  }

  lemma ReadEscaped(c: char, more: string)
    ensures var l := ReadLiteral(more, 0); ReadLiteral(['\\', c] + more, 0) == Literal([c] + l.text, l.rest, l.closed)
  {
    var s := ['\\', c] + more;
    assert s[0] == '\\' && s[1] == c && s[2..] == more;
  }

  lemma ReadOrdinary(c: char, more: string)
    requires c !in "\\()"
    ensures var l := ReadLiteral(more, 0); ReadLiteral([c] + more, 0) == Literal([c] + l.text, l.rest, l.closed)
  {
    var s := [c] + more;
    assert "\\()"[0] == '\\' && "\\()"[1] == '(' && "\\()"[2] == ')';
    assert s[0] == c && s[1..] == more;
  }

  lemma ReadEnd(tail: string)
    ensures ReadLiteral(")" + tail, 0) == Literal("", tail, true)
  {
    assert (")" + tail)[1..] == tail;
  }

  /** The escaped text reads back as itself and ends at its own closing parenthesis. */
  lemma {:induction false} LiteralBack(value: string, tail: string)
    ensures ReadLiteral(EscapePdfText(value) + (")" + tail), 0) == Literal(value, tail, true)
  {
    hide ReadLiteral;
    if value == "" {
      ReadEnd(tail);
      assert EscapePdfText(value) + (")" + tail) == ")" + tail;
    } else {
      var more := EscapePdfText(value[1..]) + (")" + tail);
      LiteralBack(value[1..], tail);
      assert value == [value[0]] + value[1..];
      if value[0] in "\\()" {
        ReadEscaped(value[0], more);
        assert EscapePdfText(value) + (")" + tail) == ['\\', value[0]] + more;
      } else {
        ReadOrdinary(value[0], more);
        assert EscapePdfText(value) + (")" + tail) == [value[0]] + more;
      }
    }
  }
}
