/**
 The bytes of a PDF file: numbered objects, the cross-reference table and the trailer (ISO 32000-1
 sections 7.3.8, 7.3.10, 7.5.4 and 7.5.5).
 */
module PdfFile {
  import opened PdfText

  type Bytes = seq<byte>

  // ---------- decimal numbers ----------

  function Digit(n: nat): char
    requires n < 10
  {
    "0123456789"[n]
  }

  function DigitValue(c: char): nat {
    if '0' <= c <= '9' then c as int - '0' as int else 0
  }

  function Decimal(n: nat): string {
    if n < 10 then [Digit(n)] else Decimal(n / 10) + [Digit(n % 10)]
  }

  function ValueOf(s: string): nat {
    if s == "" then 0 else 10 * ValueOf(s[..|s| - 1]) + DigitValue(s[|s| - 1])
  }

  lemma DigitBack(n: nat)
    requires n < 10
    ensures DigitValue(Digit(n)) == n && Digit(n) as int < 128
  {
  }

  /** A number reads back from its digits. */
  lemma {:induction false} DecimalBack(n: nat)
    ensures ValueOf(Decimal(n)) == n && IsAscii(Decimal(n)) && |Decimal(n)| > 0
  {
    if n < 10 {
      DigitBack(n);
      assert Decimal(n)[..0] == "";
    } else {
      DecimalBack(n / 10);
      DigitBack(n % 10);
      assert Decimal(n)[..|Decimal(n)| - 1] == Decimal(n / 10);
    }
  }

  function Pow10(k: nat): (r: nat)
    ensures r > 0
  {
    if k == 0 then 1 else 10 * Pow10(k - 1)
  }

  lemma {:induction false} DecimalLength(n: nat, k: nat)
    requires k > 0
    ensures |Decimal(n)| <= k <==> n < Pow10(k)
  {
    if n < 10 {
      assert Pow10(k) >= 10;
    } else if k == 1 {
      DecimalBack(n / 10);
      assert Pow10(1) == 10 * Pow10(0);
    } else {
      DecimalLength(n / 10, k - 1);
      assert n / 10 < Pow10(k - 1) <==> n < 10 * Pow10(k - 1);
    }
  }

  function Zeros(n: nat): string {
    if n == 0 then "" else Zeros(n - 1) + "0"
  }

  function PadZeros(s: string, width: nat): string {
    if |s| >= width then s else Zeros(width - |s|) + s
  }

  lemma {:induction false} ZerosAreNothing(n: nat, s: string)
    ensures ValueOf(Zeros(n) + s) == ValueOf(s)
    ensures |Zeros(n)| == n && IsAscii(Zeros(n))
    decreases n + |s|
  {
    if s != "" {
      assert (Zeros(n) + s)[..|Zeros(n) + s| - 1] == Zeros(n) + s[..|s| - 1];
      ZerosAreNothing(n, s[..|s| - 1]);
    } else if n > 0 {
      ZerosAreNothing(n - 1, "");
      assert Zeros(n) + s == Zeros(n);
      assert Zeros(n)[..n - 1] == Zeros(n - 1) + "";
    }
  }

  // ---------- pieces of the file ----------

  /** The file holds these bytes at this place. */
  predicate Holds(file: Bytes, at: nat, part: Bytes) {
    at + |part| <= |file| && file[at..at + |part|] == part
  }

  function Chunk(id: nat, body: Bytes): Bytes {
    Binary(Decimal(id) + " 0 obj\n") + body + Binary("\nendobj\n")
  }

  const HEADER: Bytes := Binary("%PDF-1.4\n%") + [0xe2, 0xe3, 0xcf, 0xd3] + Binary("\n")

  /** The header and the objects numbered below `n`, in order. */
  function Upto(objects: map<nat, Bytes>, n: nat): Bytes {
    if n <= 1 then HEADER
    else Upto(objects, n - 1) + if n - 1 in objects then Chunk(n - 1, objects[n - 1]) else []
  }

  /** Where object `k` starts. */
  function OffsetOf(objects: map<nat, Bytes>, k: nat): nat {
    |Upto(objects, k)|
  }

  function XrefLine(offset: nat): string {
    PadZeros(Decimal(offset), 10) + " 00000 n \n"
  }

  function XrefLines(objects: map<nat, Bytes>, n: nat): Bytes {
    if n <= 1 then []
    else XrefLines(objects, n - 1) + Binary(XrefLine(if n - 1 in objects then OffsetOf(objects, n - 1) else 0))
  }

  const FREE_LINE := "0000000000 65535 f \n"

  function XrefHead(size: nat): string {
    "xref\n0 " + Decimal(size) + "\n"
  }

  function Trailer(size: nat, root: nat): string {
    "trailer\n<< /Size " + Decimal(size) + " /Root " + Decimal(root) + " 0 R >>\n"
  }

  function StartXref(offset: nat): string {
    "startxref\n" + Decimal(offset) + "\n%%EOF"
  }

  function File(objects: map<nat, Bytes>, size: nat, root: nat): Bytes {
    Upto(objects, size) + Binary(XrefHead(size)) + Binary(FREE_LINE) + XrefLines(objects, size)
    + Binary(Trailer(size, root)) + Binary(StartXref(OffsetOf(objects, size)))
  }

  // ---------- offsets ----------

  lemma {:induction false} UptoGrows(objects: map<nat, Bytes>, k: nat, n: nat)
    requires k <= n
    ensures Upto(objects, k) <= Upto(objects, n)
    decreases n
  {
    if k < n && n > 1 {
      UptoGrows(objects, k, n - 1);
    }
  }

  lemma HoldsInLonger(file: Bytes, longer: Bytes, at: nat, part: Bytes)
    requires file <= longer && Holds(file, at, part)
    ensures Holds(longer, at, part)
  {
  }

  lemma HoldsAtEnd(file: Bytes, part: Bytes)
    ensures Holds(file + part, |file|, part)
  {
  }

  /** Object `k` stands in the file at its offset, number and body. */
  lemma ObjectAtOffset(objects: map<nat, Bytes>, size: nat, root: nat, k: nat)
    requires 1 <= k < size && k in objects
    ensures Holds(File(objects, size, root), OffsetOf(objects, k), Chunk(k, objects[k]))
  {
    hide Binary, Chunk, XrefLines, XrefHead, Trailer, StartXref;
    HoldsAtEnd(Upto(objects, k), Chunk(k, objects[k]));
    assert Upto(objects, k + 1) == Upto(objects, k) + Chunk(k, objects[k]);
    UptoGrows(objects, k + 1, size);
    FileStarts(objects, size, root);
    hide Upto, File;
    HoldsInLonger(Upto(objects, k + 1), Upto(objects, size), OffsetOf(objects, k), Chunk(k, objects[k]));
    HoldsInLonger(Upto(objects, size), File(objects, size, root), OffsetOf(objects, k), Chunk(k, objects[k]));
  }

  lemma FileStarts(objects: map<nat, Bytes>, size: nat, root: nat)
    ensures Upto(objects, size) <= File(objects, size, root)
  {
    hide Binary, Upto, XrefLines, XrefHead, Trailer, StartXref;
    var a, b, c, d, e, f := Upto(objects, size), Binary(XrefHead(size)), Binary(FREE_LINE), XrefLines(objects, size), Binary(Trailer(size, root)), Binary(StartXref(OffsetOf(objects, size)));
    assert a <= a + b <= a + b + c <= a + b + c + d <= a + b + c + d + e <= a + b + c + d + e + f;
  }

  /** A line of the table has twenty bytes exactly when its offset has at most ten digits. */
  lemma LineHasTwentyBytes(offset: nat)
    ensures |XrefLine(offset)| == |Binary(XrefLine(offset))|
    ensures |XrefLine(offset)| == 20 <==> offset < Pow10(10)
    ensures offset < Pow10(10) ==> ValueOf(XrefLine(offset)[..10]) == offset && XrefLine(offset) == XrefLine(offset)[..10] + " 00000 n \n"
  {
    hide Pow10;
    DecimalBack(offset);
    DecimalLength(offset, 10);
    hide Decimal;
    var digits := Decimal(offset);
    ZerosAreNothing(if |digits| >= 10 then 0 else 10 - |digits|, digits);
    assert IsAscii(XrefLine(offset));
    BinaryOfAscii(XrefLine(offset));
    if offset < Pow10(10) {
      assert XrefLine(offset)[..10] == PadZeros(digits, 10);
    }
  }

  ghost predicate SmallOffsets(objects: map<nat, Bytes>, size: nat) {
    forall k: nat :: 1 <= k < size ==> OffsetOf(objects, k) < Pow10(10)
  }

  lemma {:induction false} LinesInPlace(objects: map<nat, Bytes>, n: nat, k: nat)
    requires n >= 1 && SmallOffsets(objects, n) && (forall j: nat :: 1 <= j < n ==> j in objects)
    ensures |XrefLines(objects, n)| == 20 * (n - 1)
    ensures 1 <= k < n ==> Holds(XrefLines(objects, n), 20 * (k - 1), Binary(XrefLine(OffsetOf(objects, k))))
  {
    hide Binary, XrefLine, Upto, Pow10, OffsetOf;
    if n > 1 {
      assert OffsetOf(objects, n - 1) < Pow10(10);
      LineHasTwentyBytes(OffsetOf(objects, n - 1));
      assert SmallOffsets(objects, n - 1);
      LinesInPlace(objects, n - 1, k);
      var before, line := XrefLines(objects, n - 1), Binary(XrefLine(OffsetOf(objects, n - 1)));
      if k == n - 1 {
        HoldsAtEnd(before, line);
      } else if 1 <= k < n - 1 {
        HoldsInLonger(before, before + line, 20 * (k - 1), Binary(XrefLine(OffsetOf(objects, k))));
      }
    }
  }

  lemma HoldsShifted(front: Bytes, part: Bytes, at: nat, piece: Bytes)
    requires Holds(part, at, piece)
    ensures Holds(front + part, |front| + at, piece)
  {
    assert (front + part)[|front| + at..|front| + at + |piece|] == part[at..at + |piece|];
  }

  // ---------- the whole file ----------

  /** Line `k` of the table, counting the free one as line 0. */
  function LineAt(objects: map<nat, Bytes>, size: nat, k: nat): nat {
    OffsetOf(objects, size) + |Binary(XrefHead(size))| + 20 * k
  }

  /** The file starts with its version and four bytes that are not ASCII; the table stands at the offset the file
      ends with; it announces its size; line 0 is the free one; every other line has twenty bytes whose first ten
      give the place of the object it stands for; and after the last line come the size and the root. */
  ghost predicate TableSound(file: Bytes, objects: map<nat, Bytes>, size: nat, root: nat) {
    var x := OffsetOf(objects, size);
    && Holds(file, 0, Binary("%PDF-1.4\n%")) && |file| > 14 && (forall i :: 10 <= i < 14 ==> file[i] >= 128) && file[14] == 10
    && Holds(file, x, Binary("xref\n0 " + Decimal(size) + "\n"))
    && LineAt(objects, size, 0) == x + |Binary("xref\n0 " + Decimal(size) + "\n")|
    && Holds(file, LineAt(objects, size, 0), Binary("0000000000 65535 f \n")) && |Binary("0000000000 65535 f \n")| == 20
    && (forall k: nat {:trigger LineAt(objects, size, k)} :: 1 <= k < size ==>
          LineAt(objects, size, k) == LineAt(objects, size, 0) + 20 * k && LineSound(file, objects, size, k))
    && (size >= 1 ==> Holds(file, LineAt(objects, size, 0) + 20 * size,
                            Binary("trailer\n<< /Size " + Decimal(size) + " /Root " + Decimal(root) + " 0 R >>\n")))
    && Ends(file, Binary("startxref\n" + Decimal(x) + "\n%%EOF")) && ValueOf(Decimal(x)) == x
  }

  predicate Ends(file: Bytes, part: Bytes) {
    |part| <= |file| && file[|file| - |part|..] == part
  }

  ghost predicate LineSound(file: Bytes, objects: map<nat, Bytes>, size: nat, k: nat) {
    var offset := OffsetOf(objects, k);
    && (exists digits :: |digits| == 10 && ValueOf(digits) == offset && Holds(file, LineAt(objects, size, k), Binary(digits + " 00000 n \n")))
    && k in objects && Holds(file, offset, Binary(Decimal(k) + " 0 obj\n") + objects[k] + Binary("\nendobj\n"))
  }

  lemma FreeLine()
    ensures |Binary(FREE_LINE)| == 20 == |FREE_LINE|
  {
    BinaryOfAscii(FREE_LINE);
  }

  lemma LineIsSound(objects: map<nat, Bytes>, size: nat, root: nat, k: nat)
    requires 1 <= k < size && SmallOffsets(objects, size) && (forall j: nat :: 1 <= j < size ==> j in objects)
    ensures LineSound(File(objects, size, root), objects, size, k)
  {
    hide Binary, Upto, Chunk, XrefLines, XrefLine, XrefHead, Trailer, StartXref, Pow10, Decimal;
    var file := File(objects, size, root);
    var offset := OffsetOf(objects, k);
    LineHasTwentyBytes(offset);
    LinesInPlace(objects, size, k);
    FreeLine();
    var front := Upto(objects, size) + Binary(XrefHead(size)) + Binary(FREE_LINE);
    HoldsShifted(front, XrefLines(objects, size), 20 * (k - 1), Binary(XrefLine(offset)));
    assert |front| + 20 * (k - 1) == LineAt(objects, size, k);
    assert front + XrefLines(objects, size) <= file;
    HoldsInLonger(front + XrefLines(objects, size), file, LineAt(objects, size, k), Binary(XrefLine(offset)));
    ObjectAtOffset(objects, size, root, k);
    ChunkIs(k, objects[k]);
    var digits := XrefLine(offset)[..10];
    assert |digits| == 10 && ValueOf(digits) == offset && Holds(file, LineAt(objects, size, k), Binary(digits + " 00000 n \n"));
  }

  lemma ChunkIs(id: nat, body: Bytes)
    ensures Chunk(id, body) == Binary(Decimal(id) + " 0 obj\n") + body + Binary("\nendobj\n")
  {
  }

  lemma HeaderIs()
    ensures Holds(HEADER, 0, Binary("%PDF-1.4\n%")) && |HEADER| == 15 && (forall i :: 10 <= i < 14 ==> HEADER[i] >= 128) && HEADER[14] == 10
  {
    BinaryOfAscii("%PDF-1.4\n%");
    BinaryOfAscii("\n");
  }

  lemma HeaderFirst(objects: map<nat, Bytes>, size: nat, root: nat)
    ensures HEADER <= File(objects, size, root)
  {
    hide File, Binary, Chunk;
    UptoGrows(objects, 0, size);
    FileStarts(objects, size, root);
    assert Upto(objects, 0) == HEADER;
    hide Upto;
  }

  lemma TrailerInPlace(objects: map<nat, Bytes>, size: nat, root: nat)
    requires size >= 1 && SmallOffsets(objects, size) && (forall j: nat :: 1 <= j < size ==> j in objects)
    ensures Holds(File(objects, size, root), LineAt(objects, size, 0) + 20 * size, Binary(Trailer(size, root)))
  {
    hide Binary, Upto, XrefLines, XrefHead, Trailer, StartXref, Decimal, SmallOffsets;
    FreeLine();
    LinesInPlace(objects, size, 0);
    var front := Upto(objects, size) + Binary(XrefHead(size)) + Binary(FREE_LINE) + XrefLines(objects, size);
    HoldsAtEnd(front, Binary(Trailer(size, root)));
    assert front + Binary(Trailer(size, root)) <= File(objects, size, root);
    HoldsInLonger(front + Binary(Trailer(size, root)), File(objects, size, root), |front|, Binary(Trailer(size, root)));
  }

  lemma FileParts(objects: map<nat, Bytes>, size: nat, root: nat)
    ensures var file := File(objects, size, root);
            && Holds(file, OffsetOf(objects, size), Binary(XrefHead(size)))
            && Holds(file, LineAt(objects, size, 0), Binary(FREE_LINE))
            && Ends(file, Binary(StartXref(OffsetOf(objects, size))))
  {
    hide Binary, Upto, XrefLines, XrefHead, Trailer, StartXref, Decimal;
    var file := File(objects, size, root);
    var front, head, free := Upto(objects, size), Binary(XrefHead(size)), Binary(FREE_LINE);
    HoldsAtEnd(front, head);
    assert front + head <= file;
    HoldsInLonger(front + head, file, |front|, head);
    HoldsAtEnd(front + head, free);
    assert front + head + free <= file;
    HoldsInLonger(front + head + free, file, |front + head|, free);
  }

  /** When every number below the size has an object, and no object starts beyond ten digits, the
      cross-reference table of the file is right. */
  lemma TableIsSound(objects: map<nat, Bytes>, size: nat, root: nat)
    requires SmallOffsets(objects, size) && (forall j: nat :: 1 <= j < size ==> j in objects)
    ensures TableSound(File(objects, size, root), objects, size, root)
  {
    hide Binary, Upto, XrefLines, Decimal, File, LineSound, SmallOffsets;
    FileParts(objects, size, root);
    FreeLine();
    DecimalBack(OffsetOf(objects, size));
    HeaderIs();
    HeaderFirst(objects, size, root);
    HoldsInLonger(HEADER, File(objects, size, root), 0, Binary("%PDF-1.4\n%"));
    if size >= 1 { TrailerInPlace(objects, size, root); }
    forall k: nat | 1 <= k < size ensures LineSound(File(objects, size, root), objects, size, k) {
      LineIsSound(objects, size, root, k);
    }
  }

  // ---------- streams ----------

  const PAGE_LEAD := "<< /Length "

  function StreamHead(lead: string, length: nat, gap: string): string {
    lead + Decimal(length) + " >>" + gap + "stream\n"
  }

  /** A stream object: dictionary ending in its length, then the data between the two keywords. */
  function StreamOf(lead: string, length: nat, gap: string, data: Bytes): Bytes {
    Binary(StreamHead(lead, length, gap)) + data + Binary("\nendstream")
  }

  /** The object of a page's content, as it is written: the length counts UTF-8, the data are written in
      the encoding `binary`. */
  function ContentObject(content: string): Bytes {
    Binary(StreamHead(PAGE_LEAD, Utf8Length(content), "\n") + content + "\nendstream")
  }

  /** The stated length is the number of bytes between the keywords exactly when the content is ASCII. */
  lemma ContentLengthIsRight(content: string)
    ensures ContentObject(content)
         == Binary("<< /Length " + Decimal(Utf8Length(content)) + " >>\nstream\n") + Binary(content) + Binary("\nendstream")
    ensures Utf8Length(content) == |Binary(content)| <==> IsAscii(content)
  {
    BinaryConcat(StreamHead(PAGE_LEAD, Utf8Length(content), "\n") + content, "\nendstream");
    BinaryConcat(StreamHead(PAGE_LEAD, Utf8Length(content), "\n"), content);
    LengthsAgreeOnAscii(content);
    hide Binary, Decimal, Utf8Length;
    assert StreamHead(PAGE_LEAD, Utf8Length(content), "\n") == "<< /Length " + Decimal(Utf8Length(content)) + " >>\nstream\n";
  }
}
