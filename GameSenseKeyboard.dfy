/** The per-key lighting of src/main/GameSense/GameSenseKeyboard.ts: a
    `width * height` matrix of colours, row by row. Each paint of the
    lighting renderer overwrites every cell from the BGRA bitmap of the
    page, reordering the bytes to red, green, blue. Whether a GameSense
    server is present is fixed when the keyboard is made; without one the
    matrix is never allocated (here: it has no cells) and every operation
    does nothing. Posting the matrix to the server is not part of this model. */
module GameSenseKeyboard {
  import opened Wrappers
  import GameSenseScreen

  type Byte = GameSenseScreen.Byte

  /** The lighting renderer's size, the constructor's default. */
  const KEYBOARD_WIDTH: nat := 22
  const KEYBOARD_HEIGHT: nat := 6

  /** `[red, green, blue]`; a byte read outside the bitmap is `undefined`. */
  datatype Rgb = Rgb(red: Option<int>, green: Option<int>, blue: Option<int>)

  /** `[0, 0, 0]`. */
  const BLACK := Rgb(Some(0), Some(0), Some(0))

  /** `bmp[i]`. */
  function ByteAt(bmp: seq<Byte>, i: int): (v: Option<int>)
    ensures v.Some? <==> 0 <= i < |bmp|
    ensures v.Some? ==> v.value == bmp[i] as int
  {
    if 0 <= i < |bmp| then Some(bmp[i] as int) else None
  }

  /** `[bmp[s + 2], bmp[s + 1], bmp[s]]`: the BGRA pixel at `s` as RGB. */
  function CellAt(bmp: seq<Byte>, s: int): Rgb {
    Rgb(ByteAt(bmp, s + 2), ByteAt(bmp, s + 1), ByteAt(bmp, s))
  }

  /** The matrix `update` writes: cell `k` at row `k / width` and column
      `k % width` takes the pixel at `(k / width) * (imgWidth * 4) + (k % width) * 4`,
      whatever the matrix held before. */
  function KeyboardAfter(width: nat, cells: nat, imgWidth: int, bmp: seq<Byte>): (r: seq<Rgb>)
    ensures |r| == cells
  {
    seq(cells, k requires 0 <= k < cells =>
      if width == 0 then BLACK
      else CellAt(bmp, GameSenseScreen.SourceIndex(imgWidth, k / width, k % width)))
  }

  /** The index of the last cell of a row lies below `height * width`. */
  lemma CellBelow(y: int, x: int, width: int, height: int)
    requires 0 <= y < height && 0 <= x < width
    ensures 0 <= y * width + x < height * width
  {
    GameSenseScreen.MulLe(y + 1, height, width);
  }

  /** A pixel whose bytes are all in the bitmap keeps its red, green and
      blue bytes; the alpha byte is dropped. */
  lemma CellAtReorders(bmp: seq<Byte>, s: int)
    requires 0 <= s && s + 3 < |bmp|
    ensures CellAt(bmp, s) == Rgb(Some(bmp[s + 2] as int), Some(bmp[s + 1] as int), Some(bmp[s] as int))
  {
  }

  /** Step (`y`, `x`) of `update`'s loops writes the cell that
      `KeyboardAfter` assigns to row `y`, column `x`. */
  lemma KeyboardCell(y: int, x: int, width: nat, height: nat, imgWidth: int, bmp: seq<Byte>)
    requires 0 <= y < height && 0 <= x < width
    ensures 0 <= y * width + x < width * height
    ensures KeyboardAfter(width, width * height, imgWidth, bmp)[y * width + x]
            == CellAt(bmp, y * (imgWidth * 4) + x * 4)
  {
    CellBelow(y, x, width, height);
    GameSenseScreen.RowCol(y, x, width);
  }

  class Keyboard {
    const hasGameSense: bool
    const width: nat
    const height: nat
    const matrix: array<Rgb>

    ghost predicate Valid()
      reads this
    {
      matrix.Length == if hasGameSense then width * height else 0
    }

    /** `new Array(width * height).fill([0, 0, 0])` when a server is present. */
    constructor (hasGameSense: bool, width: nat, height: nat)
      ensures Valid() && fresh(matrix)
      ensures this.hasGameSense == hasGameSense && this.width == width && this.height == height
      ensures forall k :: 0 <= k < matrix.Length ==> matrix[k] == BLACK
    {
      this.hasGameSense := hasGameSense;
      this.width := width;
      this.height := height;
      matrix := new Rgb[if hasGameSense then width * height else 0](_ => BLACK);
    }

    /** `update(rect, rawimg)`, given the bitmap and its width: every cell
        of the matrix is overwritten, the rectangle is not consulted. */
    method Update(rect: GameSenseScreen.Rect, bmp: seq<Byte>, imgWidth: int)
      requires Valid()
      modifies matrix
      ensures Valid()
      ensures hasGameSense ==> matrix[..] == KeyboardAfter(width, matrix.Length, imgWidth, bmp)
      ensures !hasGameSense ==> matrix[..] == old(matrix[..])
    {
      if hasGameSense {
        ghost var target := KeyboardAfter(width, matrix.Length, imgWidth, bmp);
        ghost var i := 0;
        var y := 0;
        while y < height
          invariant 0 <= y <= height
          invariant i == y * width && i <= matrix.Length
          invariant forall k :: 0 <= k < i ==> matrix[k] == target[k]
        {
          var x := 0;
          while x < width
            invariant 0 <= x <= width
            invariant i == y * width + x && i <= matrix.Length
            invariant forall k :: 0 <= k < i ==> matrix[k] == target[k]
          {
            var srcIndex := y * (imgWidth * 4) + x * 4;
            var dstIndex := y * width + x;
            KeyboardCell(y, x, width, height, imgWidth, bmp);
            matrix[dstIndex] := Rgb(ByteAt(bmp, srcIndex + 2), ByteAt(bmp, srcIndex + 1), ByteAt(bmp, srcIndex));
            x := x + 1;
            i := i + 1;
          }
          assert y * width + width == (y + 1) * width;
          y := y + 1;
        }
        assert matrix[..] == target;
      }
    }

    /** `clear`: every cell becomes `[0, 0, 0]`. */
    method Clear()
      requires Valid()
      modifies matrix
      ensures Valid()
      ensures forall k :: 0 <= k < matrix.Length ==> matrix[k] == BLACK
      ensures !hasGameSense ==> matrix[..] == old(matrix[..])
    {
      if hasGameSense {
        ghost var i := 0;
        var y := 0;
        while y < height
          invariant 0 <= y <= height
          invariant i == y * width && i <= matrix.Length
          invariant forall k :: 0 <= k < i ==> matrix[k] == BLACK
        {
          var x := 0;
          while x < width
            invariant 0 <= x <= width
            invariant i == y * width + x && i <= matrix.Length
            invariant forall k :: 0 <= k < i ==> matrix[k] == BLACK
          {
            CellBelow(y, x, width, height);
            matrix[y * width + x] := BLACK;
            x := x + 1;
            i := i + 1;
          }
          assert y * width + width == (y + 1) * width;
          y := y + 1;
        }
      }
    }

    /** `suspend`: clear the lights when a server is present. */
    method Suspend()
      requires Valid()
      modifies matrix
      ensures Valid()
      ensures forall k :: 0 <= k < matrix.Length ==> matrix[k] == BLACK
    {
      if hasGameSense {
        Clear();
      }
    }
  }
}
