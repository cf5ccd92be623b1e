/**
 The bitmap of a QR code: one bit a pixel, most significant bit first, rows padded to whole bytes, a set
 bit for white, and a white border of four modules.
 */
module QrImage {

  const QUIET := 4

  /** A square matrix of modules; true is dark. */
  predicate Square(modules: seq<seq<bool>>) {
    forall r :: 0 <= r < |modules| ==> |modules[r]| == |modules|
  }

  function BytesPerRow(size: nat): (n: nat)
    ensures 8 * n >= size && 8 * n < size + 8
  {
    (size + 7) / 8
  }

  // ---------- bits ----------

  /** Bit `k` of a byte, counted from the most significant one, is set. */
  predicate IsSet(b: bv8, k: bv8)
    requires k < 8
  {
    (b >> (7 - k)) & 1 == 1
  }

  function ClearBit(b: bv8, k: bv8): bv8
    requires k < 8
  {
    b & !(1 << (7 - k))
  }

  /** Clearing a bit clears that bit and no other. */
  lemma ClearsOneBit(b: bv8, k: bv8, j: bv8)
    requires k < 8 && j < 8
    ensures IsSet(ClearBit(b, k), j) <==> j != k && IsSet(b, j)
  {
  }

  lemma AllBitsSet(k: bv8)
    requires k < 8
    ensures IsSet(255, k)
  {
  }

  // ---------- pixels ----------

  /** The place of column `c` in its byte. */
  function BitIn(c: nat): (k: bv8)
    ensures k < 8 && k as int == c % 8
  {
    (c % 8) as bv8
  }

  function ByteIn(width: nat, r: nat, c: nat): nat {
    r * width + c / 8
  }

  lemma PixelInside(width: nat, size: nat, r: nat, c: nat)
    requires r < size && c < 8 * width
    ensures ByteIn(width, r, c) < width * size
  {
    assert c / 8 < width;
    assert r * width + width <= size * width by {
      assert (size - r - 1) * width >= 0;
    }
  }

  /** Different pixels have different bits. */
  lemma PixelsApart(width: nat, r: nat, c: nat, r': nat, c': nat)
    requires c < 8 * width && c' < 8 * width
    requires ByteIn(width, r, c) == ByteIn(width, r', c') && c % 8 == c' % 8
    ensures r == r' && c == c'
  {
    RowsApart(width, r, c / 8, r', c' / 8);
  }

  lemma RowsApart(width: nat, r: nat, b: nat, r': nat, b': nat)
    requires b < width && b' < width && r * width + b == r' * width + b'
    ensures r == r' && b == b'
  {
    if r < r' {
      RowFurther(width, r, r');
    } else if r' < r {
      RowFurther(width, r', r);
    }
  }

  lemma RowFurther(width: nat, r: nat, r': nat)
    requires r < r'
    ensures r * width + width <= r' * width
  {
    assert (r' - r - 1) * width >= 0;
    assert (r' - r - 1) * width == r' * width - r * width - width;
  }

  /** The pixel is white. */
  predicate White(data: seq<bv8>, width: nat, r: nat, c: nat)
    requires ByteIn(width, r, c) < |data|
  {
    IsSet(data[ByteIn(width, r, c)], BitIn(c))
  }

  /** A pixel is a bit of byte `c / 8` of its row, the leftmost of eight pixels being the most significant one. */
  lemma PixelIsBit(data: seq<bv8>, width: nat, r: nat, c: nat)
    requires r * width + c / 8 < |data|
    ensures ByteIn(width, r, c) == r * width + c / 8
    ensures White(data, width, r, c) <==> data[r * width + c / 8] & [0x80, 0x40, 0x20, 0x10, 0x08, 0x04, 0x02, 0x01][c % 8] != 0
  {
    BitIsMasked(data[r * width + c / 8], BitIn(c));
    var k := c % 8;
    assert k == 0 || k == 1 || k == 2 || k == 3 || k == 4 || k == 5 || k == 6 || k == 7;
  }

  lemma BitIsMasked(b: bv8, k: bv8)
    requires k < 8
    ensures IsSet(b, k) <==> b & (0x80 >> k) != 0
  {
  }

  /** The pixel lies on a dark module, four modules in from the border. */
  predicate Dark(modules: seq<seq<bool>>, r: nat, c: nat)
    requires Square(modules)
  {
    4 <= r < 4 + |modules| && 4 <= c < 4 + |modules| && modules[r - 4][c - 4]
  }

  /** The pixel was reached: its module comes before module (`row`, `column`). */
  predicate Reached(row: nat, column: nat, r: nat, c: nat) {
    r < QUIET + row || (r == QUIET + row && c < QUIET + column)
  }

  /** What the bitmap shows once the modules before (`row`, `column`) are drawn. */
  ghost predicate Drawn(data: seq<bv8>, modules: seq<seq<bool>>, width: nat, size: nat, row: nat, column: nat)
    requires Square(modules) && |data| == width * size
  {
    forall r: nat, c: nat :: r < size && c < 8 * width ==>
      ByteIn(width, r, c) < |data| && (White(data, width, r, c) <==> !(Dark(modules, r, c) && Reached(row, column, r, c)))
  }

  lemma BlankIsDrawn(data: seq<bv8>, modules: seq<seq<bool>>, width: nat, size: nat)
    requires Square(modules) && |data| == width * size
    requires forall i :: 0 <= i < |data| ==> data[i] == 255
    ensures Drawn(data, modules, width, size, 0, 0)
  {
    forall r: nat, c: nat | r < size && c < 8 * width
      ensures ByteIn(width, r, c) < |data| && White(data, width, r, c)
      ensures !(Dark(modules, r, c) && Reached(0, 0, r, c))
    {
      PixelInside(width, size, r, c);
      AllBitsSet(BitIn(c));
    }
  }

  /** Clearing the bit of one pixel blackens that pixel and no other. */
  lemma OnePixel(data: seq<bv8>, width: nat, size: nat, r: nat, c: nat, r': nat, c': nat)
    requires |data| == width * size && r < size && r' < size && c < 8 * width && c' < 8 * width
    ensures ByteIn(width, r, c) < |data| && ByteIn(width, r', c') < |data|
    ensures var i := ByteIn(width, r, c);
            White(data[i := ClearBit(data[i], BitIn(c))], width, r', c') <==> !(r' == r && c' == c) && White(data, width, r', c')
  {
    PixelInside(width, size, r, c);
    PixelInside(width, size, r', c');
    if ByteIn(width, r, c) == ByteIn(width, r', c') {
      ClearsOneBit(data[ByteIn(width, r, c)], BitIn(c), BitIn(c'));
      if c % 8 == c' % 8 { PixelsApart(width, r, c, r', c'); }
    }
  }

  lemma DrawOne(data: seq<bv8>, modules: seq<seq<bool>>, width: nat, size: nat, row: nat, column: nat)
    requires Square(modules) && |data| == width * size
    requires row < |modules| && column < |modules| && size == |modules| + 2 * QUIET && size <= 8 * width
    requires Drawn(data, modules, width, size, row, column)
    ensures ByteIn(width, row + QUIET, column + QUIET) < |data|
    ensures var i := ByteIn(width, row + QUIET, column + QUIET);
            var next := if modules[row][column] then data[i := ClearBit(data[i], BitIn(column + QUIET))] else data;
            Drawn(next, modules, width, size, row, column + 1)
  {
    var r0, c0 := row + QUIET, column + QUIET;
    PixelInside(width, size, r0, c0);
    var i := ByteIn(width, r0, c0);
    var next := if modules[row][column] then data[i := ClearBit(data[i], BitIn(c0))] else data;
    forall r: nat, c: nat | r < size && c < 8 * width
      ensures ByteIn(width, r, c) < |next|
      ensures White(next, width, r, c) <==> !(Dark(modules, r, c) && Reached(row, column + 1, r, c))
    {
      PixelInside(width, size, r, c);
      OnePixel(data, width, size, r0, c0, r, c);
      assert White(data, width, r, c) <==> !(Dark(modules, r, c) && Reached(row, column, r, c));
    }
  }

  lemma NextRow(data: seq<bv8>, modules: seq<seq<bool>>, width: nat, size: nat, row: nat)
    requires Square(modules) && |data| == width * size
    requires Drawn(data, modules, width, size, row, |modules|)
    ensures Drawn(data, modules, width, size, row + 1, 0)
  {
    forall r: nat, c: nat | r < size && c < 8 * width
      ensures ByteIn(width, r, c) < |data|
      ensures White(data, width, r, c) <==> !(Dark(modules, r, c) && Reached(row + 1, 0, r, c))
    {
      assert White(data, width, r, c) <==> !(Dark(modules, r, c) && Reached(row, |modules|, r, c));
    }
  }

  // ---------- the image ----------

  /** A pixel is black exactly when it lies on a dark module; the border and the padding of every row stay white. */
  ghost predicate Shows(data: seq<bv8>, modules: seq<seq<bool>>, width: nat, size: nat)
    requires Square(modules) && |data| == width * size
  {
    forall r: nat, c: nat :: r < size && c < 8 * width ==>
      ByteIn(width, r, c) < |data| && (White(data, width, r, c) <==> !Dark(modules, r, c))
  }

  method CreateQrImage(modules: seq<seq<bool>>) returns (data: array<bv8>, width: nat, size: nat)
    requires Square(modules)
    ensures fresh(data)
    ensures size == |modules| + 8 && width == BytesPerRow(size) && data.Length == width * size
    ensures Shows(data[..], modules, width, size)
  {
    size := |modules| + QUIET * 2;
    width := BytesPerRow(size);
    data := new bv8[width * size](_ => 0xff);
    BlankIsDrawn(data[..], modules, width, size);
    for row := 0 to |modules|
      invariant Drawn(data[..], modules, width, size, row, 0)
    {
      for column := 0 to |modules|
        invariant Drawn(data[..], modules, width, size, row, column)
      {
        DrawOne(data[..], modules, width, size, row, column);
        if modules[row][column] {
          var imageRow, imageColumn := row + QUIET, column + QUIET;
          var i := ByteIn(width, imageRow, imageColumn);
          ghost var before := data[..];
          data[i] := ClearBit(data[i], BitIn(imageColumn));
          assert data[..] == before[i := ClearBit(before[i], BitIn(imageColumn))];
        }
      }
      NextRow(data[..], modules, width, size, row);
    }
    AllDrawn(data[..], modules, width, size);
  }

  lemma AllDrawn(data: seq<bv8>, modules: seq<seq<bool>>, width: nat, size: nat)
    requires Square(modules) && |data| == width * size
    requires Drawn(data, modules, width, size, |modules|, 0)
    ensures Shows(data, modules, width, size)
  {
    forall r: nat, c: nat | r < size && c < 8 * width
      ensures ByteIn(width, r, c) < |data| && (White(data, width, r, c) <==> !Dark(modules, r, c))
    {
      assert White(data, width, r, c) <==> !(Dark(modules, r, c) && Reached(|modules|, 0, r, c));
    }
  }

  /** The four modules around the code are white, and so are the bits that fill up a row. */
  lemma BorderIsWhite(data: seq<bv8>, modules: seq<seq<bool>>, width: nat, size: nat, r: nat, c: nat)
    requires Square(modules) && |data| == width * size && size == |modules| + 8 && width == BytesPerRow(size)
    requires Shows(data, modules, width, size)
    requires r < size && c < 8 * width
    requires r < 4 || r >= size - 4 || c < 4 || c >= size - 4
    ensures ByteIn(width, r, c) < |data| && White(data, width, r, c)
  {
  }

  /** The modules can be read back from the bitmap. */
  lemma ModulesCanBeRead(data: seq<bv8>, modules: seq<seq<bool>>, other: seq<seq<bool>>, width: nat, size: nat)
    requires Square(modules) && Square(other) && |other| == |modules| && |data| == width * size
    requires size == |modules| + 8 && width == BytesPerRow(size)
    requires Shows(data, modules, width, size) && Shows(data, other, width, size)
    ensures modules == other
  {
    forall r, c | 0 <= r < |modules| && 0 <= c < |modules| ensures modules[r][c] == other[r][c] {
      var y: nat, x: nat := r + QUIET, c + QUIET;
      assert White(data, width, y, x) <==> !Dark(modules, y, x);
      assert White(data, width, y, x) <==> !Dark(other, y, x);
    }
    forall r | 0 <= r < |modules| ensures modules[r] == other[r] {
    }
  }
}
