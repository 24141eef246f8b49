/** The raster canvas: one flat buffer of red, green and blue bytes, drawn on in place. */
module Canvas {

  newtype byte = x: int | 0 <= x < 256

  const WIDTH := 960
  const HEIGHT := 540
  const STRIDE := 2880
  const SIZE := 1555200

  type Color = c: seq<byte> | |c| == 3 witness [0, 0, 0]

  /** The byte belongs to a pixel inside the rectangle. The canvas bounds what a byte can belong to. */
  predicate Covers(k: int, x: int, y: int, width: int, height: int)
  {
    x <= k % STRIDE / 3 < x + width && y <= k / STRIDE < y + height
  }

  /** A picture with a rectangle drawn on it: exactly the bytes inside change, to the color. */
  ghost function Drawn(data: seq<byte>, x: int, y: int, width: int, height: int, color: Color): seq<byte>
  {
    seq(|data|, k requires 0 <= k < |data| => if Covers(k, x, y, width, height) then color[k % 3] else data[k])
  }

  /** A pixel's three bytes change exactly when the pixel lies inside the rectangle. */
  lemma PixelDrawn(data: seq<byte>, x: int, y: int, width: int, height: int, color: Color, px: int, py: int, c: int)
    requires |data| == SIZE && 0 <= px < WIDTH && 0 <= py < HEIGHT && 0 <= c < 3
    ensures var k := (py * WIDTH + px) * 3 + c;
            && 0 <= k < |data| && |Drawn(data, x, y, width, height, color)| == |data|
            && Drawn(data, x, y, width, height, color)[k]
               == if x <= px < x + width && y <= py < y + height then color[c] else data[k]
  {
    var k := (py * WIDTH + px) * 3 + c;
    RowBytes(k, py, px, px + 1);
  }

  function Max(a: int, b: int): int { if a >= b then a else b }
  function Min(a: int, b: int): int { if a <= b then a else b }

  /** The bytes of a row between two columns, by position in the buffer and by pixel. */
  lemma RowBytes(k: nat, row: int, left: int, right: int)
    requires 0 <= left <= right <= WIDTH && row >= 0
    ensures (row * WIDTH + left) * 3 <= k < (row * WIDTH + right) * 3
       <==> k / STRIDE == row && left <= k % STRIDE / 3 < right
    ensures (k - (row * WIDTH + left) * 3) % 3 == k % 3
  {
  }

  // ---------------------------------------------------------------------------------------------
  // Text
  // ---------------------------------------------------------------------------------------------

  /** Seven rows of five bits. */
  type Glyph = g: seq<int> | |g| == 7 witness [0, 0, 0, 0, 0, 0, 0]

  datatype Font = Font(glyphs: map<char, Glyph>, missing: Glyph)

  function GlyphOf(font: Font, c: char): Glyph
  {
    if c in font.glyphs then font.glyphs[c] else font.missing
  }

  function Power(n: nat): nat
    ensures Power(n) > 0
  {
    if n == 0 then 1 else 2 * Power(n - 1)
  }

  /** Whether a glyph's row is lit in a column, counted from the left. */
  predicate IsLit(bits: int, column: int)
  {
    0 <= column < 5 && bits / Power(4 - column) % 2 == 1
  }

  /** A row's bits, the leftmost first, are the binary digits of its number. */
  lemma BitsMean(bits: int)
    requires 0 <= bits < 32
    ensures bits == (if IsLit(bits, 0) then 16 else 0) + (if IsLit(bits, 1) then 8 else 0)
                    + (if IsLit(bits, 2) then 4 else 0) + (if IsLit(bits, 3) then 2 else 0)
                    + (if IsLit(bits, 4) then 1 else 0)
  {
    assert Power(0) == 1 && Power(1) == 2 && Power(2) == 4 && Power(3) == 8 && Power(4) == 16;
  }

  datatype Cell = Cell(x: int, y: int)

  /** The lit cells of a row's first `n` columns. */
  function RowCells(bits: int, x: int, y: int, scale: int, n: nat): seq<Cell>
  {
    if n == 0 then []
    else RowCells(bits, x, y, scale, n - 1) + if IsLit(bits, n - 1) then [Cell(x + (n - 1) * scale, y)] else []
  }

  /** The lit cells of a glyph's first `n` rows. */
  function GlyphCells(glyph: Glyph, x: int, y: int, scale: int, n: nat): seq<Cell>
    requires n <= 7
  {
    if n == 0 then []
    else GlyphCells(glyph, x, y, scale, n - 1) + RowCells(glyph[n - 1], x, y + (n - 1) * scale, scale, 5)
  }

  /** The lit cells of a text, each character six columns further on. */
  function TextCells(font: Font, text: string, x: int, y: int, scale: int): seq<Cell>
  {
    if text == "" then []
    else
      var n := |text| - 1;
      TextCells(font, text[..n], x, y, scale) + GlyphCells(GlyphOf(font, text[n]), x + 6 * scale * n, y, scale, 7)
  }

  /** The byte belongs to a pixel of some cell. */
  ghost predicate InCells(k: int, cells: seq<Cell>, scale: int)
  {
    exists j :: 0 <= j < |cells| && Covers(k, cells[j].x, cells[j].y, scale, scale)
  }

  /** A picture with cells drawn on it: exactly the bytes in their union change, to the color. */
  ghost function Painted(data: seq<byte>, cells: seq<Cell>, scale: int, color: Color): seq<byte>
  {
    seq(|data|, k requires 0 <= k < |data| => if InCells(k, cells, scale) then color[k % 3] else data[k])
  }

  lemma InCellsNext(k: int, cells: seq<Cell>, cell: Cell, scale: int)
    ensures InCells(k, cells + [cell], scale) <==> InCells(k, cells, scale) || Covers(k, cell.x, cell.y, scale, scale)
  {
    hide Covers;
    var all := cells + [cell];
    assert forall j :: 0 <= j < |cells| ==> all[j] == cells[j];
    assert all[|cells|] == cell;
    if j :| 0 <= j < |cells| && Covers(k, cells[j].x, cells[j].y, scale, scale) {
      assert Covers(k, all[j].x, all[j].y, scale, scale);
    }
  }

  lemma PaintedNext(data: seq<byte>, cells: seq<Cell>, cell: Cell, scale: int, color: Color)
    ensures Drawn(Painted(data, cells, scale, color), cell.x, cell.y, scale, scale, color)
         == Painted(data, cells + [cell], scale, color)
  {
    hide Covers, InCells;
    forall k | 0 <= k < |data| ensures InCells(k, cells + [cell], scale)
      <==> InCells(k, cells, scale) || Covers(k, cell.x, cell.y, scale, scale)
    {
      InCellsNext(k, cells, cell, scale);
    }
  }

  lemma NothingPainted(data: seq<byte>, scale: int, color: Color)
    ensures Painted(data, [], scale, color) == data
  {
  }

  // ---------------------------------------------------------------------------------------------
  // The union of glyph cells
  // ---------------------------------------------------------------------------------------------

  lemma InCellsConcat(k: int, a: seq<Cell>, b: seq<Cell>, scale: int)
    ensures InCells(k, a + b, scale) <==> InCells(k, a, scale) || InCells(k, b, scale)
  {
    hide Covers;
    var all := a + b;
    if j :| 0 <= j < |a| && Covers(k, a[j].x, a[j].y, scale, scale) {
      assert all[j] == a[j];
    }
    if j :| 0 <= j < |b| && Covers(k, b[j].x, b[j].y, scale, scale) {
      assert all[|a| + j] == b[j];
    }
  }

  /** The byte belongs to the lit cell in this column. */
  ghost predicate InColumn(k: int, bits: int, x: int, y: int, scale: int, column: int)
  {
    IsLit(bits, column) && Covers(k, x + column * scale, y, scale, scale)
  }

  lemma {:induction false} InRow(k: int, bits: int, x: int, y: int, scale: int, n: nat)
    ensures InCells(k, RowCells(bits, x, y, scale, n), scale)
       <==> exists column :: 0 <= column < n && InColumn(k, bits, x, y, scale, column)
  {
    hide Covers, IsLit;
    if n > 0 {
      InRow(k, bits, x, y, scale, n - 1);
      var cell := Cell(x + (n - 1) * scale, y);
      InCellsNext(k, RowCells(bits, x, y, scale, n - 1), cell, scale);
      var before := RowCells(bits, x, y, scale, n - 1);
      assert before + [] == before;
      assert InColumn(k, bits, x, y, scale, n - 1) <==> IsLit(bits, n - 1) && Covers(k, cell.x, cell.y, scale, scale);
    }
  }

  ghost predicate InBits(k: int, bits: int, x: int, y: int, scale: int)
  {
    exists column :: 0 <= column < 5 && InColumn(k, bits, x, y, scale, column)
  }

  ghost predicate InGlyphRow(k: int, glyph: Glyph, x: int, y: int, scale: int, row: int)
  {
    0 <= row < 7 && InBits(k, glyph[row], x, y + row * scale, scale)
  }

  lemma {:induction false} InGlyph(k: int, glyph: Glyph, x: int, y: int, scale: int, n: nat)
    requires n <= 7
    ensures InCells(k, GlyphCells(glyph, x, y, scale, n), scale)
       <==> exists row :: 0 <= row < n && InGlyphRow(k, glyph, x, y, scale, row)
  {
    hide Covers, InColumn, InCells, RowCells;
    if n == 0 {
      NoCells(k, scale);
    } else {
      InGlyph(k, glyph, x, y, scale, n - 1);
      InRow(k, glyph[n - 1], x, y + (n - 1) * scale, scale, 5);
      InCellsConcat(k, GlyphCells(glyph, x, y, scale, n - 1), RowCells(glyph[n - 1], x, y + (n - 1) * scale, scale, 5), scale);
      assert InGlyphRow(k, glyph, x, y, scale, n - 1)
        <==> InCells(k, RowCells(glyph[n - 1], x, y + (n - 1) * scale, scale, 5), scale);
    }
  }

  lemma NoCells(k: int, scale: int)
    ensures !InCells(k, [], scale)
  {
  }

  ghost predicate InGlyphAt(k: int, glyph: Glyph, x: int, y: int, scale: int)
  {
    exists row :: 0 <= row < 7 && InGlyphRow(k, glyph, x, y, scale, row)
  }

  /** The byte belongs to the lit cell in a row and a column of a character of the text. */
  ghost predicate InCharacter(k: int, font: Font, text: string, x: int, y: int, scale: int, i: int)
  {
    0 <= i < |text| && InGlyphAt(k, GlyphOf(font, text[i]), x + 6 * scale * i, y, scale)
  }

  /** Drawing a text touches exactly the union of its characters' lit cells. */
  lemma {:induction false} InText(k: int, font: Font, text: string, x: int, y: int, scale: int, n: nat)
    requires n <= |text|
    ensures InCells(k, TextCells(font, text[..n], x, y, scale), scale)
       <==> exists i :: 0 <= i < n && InCharacter(k, font, text, x, y, scale, i)
  {
    hide InGlyphRow, InCells, GlyphCells, GlyphOf;
    if n == 0 {
      NoCells(k, scale);
    } else {
      var i := n - 1;
      InText(k, font, text, x, y, scale, i);
      var glyph, at := GlyphOf(font, text[i]), x + 6 * scale * i;
      InGlyph(k, glyph, at, y, scale, 7);
      InCellsConcat(k, TextCells(font, text[..i], x, y, scale), GlyphCells(glyph, at, y, scale, 7), scale);
      assert text[..n][..i] == text[..i];
      assert InCharacter(k, font, text, x, y, scale, i) <==> InCells(k, GlyphCells(glyph, at, y, scale, 7), scale);
    }
  }

  class Canvas {
    const pixels: array<byte>

    constructor (background: Color)
      ensures fresh(pixels) && pixels.Length == SIZE
      ensures forall k :: 0 <= k < SIZE ==> pixels[k] == background[k % 3]
    {
      pixels := new byte[SIZE](k => background[k % 3]);
    }

    /** Any rectangle, on the canvas or not. */
    method Rectangle(x: int, y: int, width: int, height: int, color: Color)
      requires pixels.Length == SIZE
      modifies pixels
      ensures pixels[..] == Drawn(old(pixels[..]), x, y, width, height, color)
    {
      var x0, y0 := Max(0, x), Max(0, y);
      var x1, y1 := Min(WIDTH, x + width), Min(HEIGHT, y + height);
      var length := 3 * Max(0, x1 - x0);
      var row := y0;
      while row < y1
        invariant y0 <= row
        invariant forall k :: 0 <= k < SIZE ==>
          pixels[k] == if Covers(k, x, y, width, height) && k / STRIDE < row then color[k % 3] else old(pixels[k])
      {
        var start := (row * WIDTH + x0) * 3;
        DrawRow(start, length, color);
        forall k | 0 <= k < SIZE
          ensures pixels[k] == if Covers(k, x, y, width, height) && k / STRIDE < row + 1 then color[k % 3] else old(pixels[k])
        {
          if x0 <= x1 {
            RowBytes(k, row, x0, x1);
          }
        }
        row := row + 1;
      }
    }

    /** One row of a glyph, behind the cells already drawn on a picture. */
    method BitsRow(bits: int, x: int, y: int, color: Color, scale: int, ghost before: seq<byte>, ghost cells: seq<Cell>)
      requires pixels.Length == SIZE && pixels[..] == Painted(before, cells, scale, color)
      modifies pixels
      ensures pixels[..] == Painted(before, cells + RowCells(bits, x, y, scale, 5), scale, color)
    {
      hide Drawn, Painted, IsLit;
      ghost var all := cells;
      assert cells + [] == cells;
      for column := 0 to 5
        invariant all == cells + RowCells(bits, x, y, scale, column)
        invariant pixels[..] == Painted(before, all, scale, color)
      {
        if IsLit(bits, column) {
          PaintedNext(before, all, Cell(x + column * scale, y), scale, color);
          Rectangle(x + column * scale, y, scale, scale, color);
          all := all + [Cell(x + column * scale, y)];
        }
      }
    }

    method DrawGlyph(glyph: Glyph, x: int, y: int, color: Color, scale: int, ghost before: seq<byte>, ghost cells: seq<Cell>)
      requires pixels.Length == SIZE && pixels[..] == Painted(before, cells, scale, color)
      modifies pixels
      ensures pixels[..] == Painted(before, cells + GlyphCells(glyph, x, y, scale, 7), scale, color)
    {
      hide Drawn, Painted, RowCells;
      ghost var all := cells;
      assert cells + [] == cells;
      for row := 0 to 7
        invariant all == cells + GlyphCells(glyph, x, y, scale, row)
        invariant pixels[..] == Painted(before, all, scale, color)
      {
        BitsRow(glyph[row], x, y + row * scale, color, scale, before, all);
        all := all + RowCells(glyph[row], x, y + row * scale, scale, 5);
      }
    }

    /** A text, wherever it lies: each lit cell of the glyphs of its upper-case form is a square. */
    method Text(font: Font, upper: string -> string, x: int, y: int, value: string, color: Color, scale: int)
      requires pixels.Length == SIZE
      modifies pixels
      ensures pixels[..] == Painted(old(pixels[..]), TextCells(font, upper(value), x, y, scale), scale, color)
    {
      hide Drawn, Painted, GlyphCells;
      var text := upper(value);
      ghost var before, cells := pixels[..], [];
      NothingPainted(before, scale, color);
      var cursor := x;
      for i := 0 to |text|
        invariant cursor == x + 6 * scale * i && cells == TextCells(font, text[..i], x, y, scale)
        invariant pixels[..] == Painted(before, cells, scale, color)
      {
        assert text[..i + 1][..i] == text[..i];
        var glyph := GlyphOf(font, text[i]);
        DrawGlyph(glyph, cursor, y, color, scale, before, cells);
        cells := cells + GlyphCells(glyph, cursor, y, scale, 7);
        cursor := cursor + 6 * scale;
      }
      assert text[..|text|] == text;
    }

    /** One row's slice of the buffer. */
    method DrawRow(start: int, length: int, color: Color)
      requires length == 0 || (0 <= start && start + length <= pixels.Length)
      modifies pixels
      ensures forall k :: 0 <= k < pixels.Length ==>
        pixels[k] == if start <= k < start + length then color[(k - start) % 3] else old(pixels[k])
    {
      forall i | 0 <= i < length {
        pixels[start + i] := color[i % 3];
      }
    }
  }
}
