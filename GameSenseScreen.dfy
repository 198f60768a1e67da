/** The OLED screen of src/main/GameSense/GameSenseScreen.ts: a
    `width * height` buffer of 0/1 cells, one per pixel, row by row. Each
    paint of the off-screen renderer hands over a dirty rectangle and the
    BGRA bitmap of the whole page; every pixel of the rectangle becomes 1
    when its first three bytes add up to at least 384. The posting of the
    packed frame to the GameSense server is not part of this model. */
module GameSenseScreen {

  type Byte = b: int | 0 <= b < 256

  /** The screen of the Apex keyboards, the constructor's default size. */
  const STEELSERIES_APEX_SCREEN_WIDTH: nat := 128
  const STEELSERIES_APEX_SCREEN_HEIGHT: nat := 40

  /** An Electron rectangle. */
  datatype Rect = Rect(x: int, y: int, width: int, height: int)

  predicate InRect(rect: Rect, x: int, y: int) {
    rect.x <= x < rect.x + rect.width && rect.y <= y < rect.y + rect.height
  }

  /** `bmp[s] + bmp[s + 1] + bmp[s + 2] >= 128 * 3 ? 1 : 0`; a byte outside
      the bitmap reads as `undefined`, the sum is `NaN` and the comparison
      false. */
  function PixelBit(bmp: seq<Byte>, s: int): (bit: int)
    ensures bit == 0 || bit == 1
    ensures bit == 1 <==> 0 <= s && s + 2 < |bmp| && bmp[s] as int + bmp[s + 1] as int + bmp[s + 2] as int >= 384
  {
    if 0 <= s && s + 2 < |bmp| && bmp[s] as int + bmp[s + 1] as int + bmp[s + 2] as int >= 128 * 3 then 1 else 0
  }

  /** Where the pixel of row `y`, column `x` starts in a bitmap `width`
      pixels wide: `y * (width * 4) + x * 4`. */
  function SourceIndex(width: int, y: int, x: int): int {
    y * (width * 4) + x * 4
  }

  /** The cells after `update(rect, bmp)`, for a rectangle that lies within
      the screen's width: the cell of row `k / width` and column
      `k % width` is the pixel's bit when the rectangle covers it and is
      kept otherwise. */
  function ScreenAfter(cells: seq<int>, width: nat, rect: Rect, bmp: seq<Byte>): (r: seq<int>)
    ensures |r| == |cells|
    ensures (forall k :: 0 <= k < |cells| ==> cells[k] == 0 || cells[k] == 1) ==>
            forall k :: 0 <= k < |r| ==> r[k] == 0 || r[k] == 1
  {
    if width == 0 then cells
    else
      seq(|cells|, k requires 0 <= k < |cells| =>
        if InRect(rect, k % width, k / width) then PixelBit(bmp, SourceIndex(width, k / width, k % width))
        else cells[k])
  }

  /** Row and column of a cell index. */
  lemma RowCol(y: int, x: int, width: int)
    requires width > 0 && 0 <= x < width
    ensures (y * width + x) / width == y && (y * width + x) % width == x
  {
    var k := y * width + x;
    var q, m := k / width, k % width;
    assert k == q * width + m && 0 <= m < width;
    if q > y {
      MulLe(y + 1, q, width);
      assert false;
    } else if q < y {
      MulLe(q + 1, y, width);
      assert false;
    }
  }

  lemma MulLe(a: int, b: int, w: int)
    requires a <= b && w >= 0
    ensures a * w <= b * w
  {
    var c: nat := b - a;
    assert b * w - a * w == c * w;
  }

  /** A cell index below `width * height` lies in one of the `height` rows. */
  lemma RowBound(k: int, width: int, height: int)
    requires width > 0 && 0 <= k < width * height
    ensures 0 <= k / width < height
  {
    var q := k / width;
    assert k == q * width + k % width;
  }

  /** Painting the same rectangle with the same bitmap again changes nothing. */
  lemma ScreenAfterIdempotent(cells: seq<int>, width: nat, rect: Rect, bmp: seq<Byte>)
    ensures ScreenAfter(ScreenAfter(cells, width, rect, bmp), width, rect, bmp) == ScreenAfter(cells, width, rect, bmp)
  {
    var once := ScreenAfter(cells, width, rect, bmp);
    var twice := ScreenAfter(once, width, rect, bmp);
    if width > 0 {
      forall k | 0 <= k < |cells| ensures twice[k] == once[k] {
      }
    }
  }

  /** A full-screen paint with an empty bitmap blanks every cell. */
  lemma ScreenAfterEmptyImage(cells: seq<int>, width: nat, height: nat)
    requires |cells| == width * height
    ensures ScreenAfter(cells, width, Rect(0, 0, width, height), []) == seq(|cells|, _ => 0)
  {
    var r := ScreenAfter(cells, width, Rect(0, 0, width, height), []);
    forall k | 0 <= k < |cells| ensures r[k] == 0 {
      RowBound(k, width, height);
    }
  }

  /** The cells written before step (`y`, `x`) of the row-by-row loop. */
  ghost predicate WrittenBefore(rect: Rect, row: int, col: int, y: int, x: int) {
    InRect(rect, col, row) && (row < y || (row == y && col < x))
  }

  class Screen {
    const width: nat
    const height: nat
    const buffer: array<int>

    /** One cell per pixel, each 0 or 1. */
    ghost predicate Valid()
      reads this, buffer
    {
      buffer.Length == width * height
      && forall k :: 0 <= k < buffer.Length ==> buffer[k] == 0 || buffer[k] == 1
    }

    /** `Buffer.alloc(width * height, 0)`. */
    constructor (width: nat, height: nat)
      ensures Valid() && this.width == width && this.height == height && fresh(buffer)
      ensures forall k :: 0 <= k < buffer.Length ==> buffer[k] == 0
    {
      this.width := width;
      this.height := height;
      buffer := new int[width * height](_ => 0);
    }

    /** `update(rect, img)`: the nested loops over the rectangle; a cell
        index outside the buffer is not written. */
    method Update(rect: Rect, bmp: seq<Byte>)
      requires Valid()
      modifies buffer
      ensures Valid()
      ensures 0 <= rect.x && rect.x + rect.width <= width ==>
        buffer[..] == ScreenAfter(old(buffer[..]), width, rect, bmp)
    {
      ghost var fits := 0 <= rect.x && rect.x + rect.width <= width && width > 0;
      var y := rect.y;
      while y < rect.y + rect.height
        invariant rect.y <= y
        invariant rect.height >= 0 ==> y <= rect.y + rect.height
        invariant Valid()
        invariant fits ==> forall k :: 0 <= k < buffer.Length ==>
          buffer[k] == if WrittenBefore(rect, k / width, k % width, y, rect.x)
                       then PixelBit(bmp, SourceIndex(width, k / width, k % width)) else old(buffer[k])
      {
        var x := rect.x;
        while x < rect.x + rect.width
          invariant rect.x <= x
          invariant rect.width >= 0 ==> x <= rect.x + rect.width
          invariant Valid()
          invariant fits ==> forall k :: 0 <= k < buffer.Length ==>
            buffer[k] == if WrittenBefore(rect, k / width, k % width, y, x)
                         then PixelBit(bmp, SourceIndex(width, k / width, k % width)) else old(buffer[k])
        {
          var srcIndex := y * (width * 4) + x * 4;
          var destIndex := y * width + x;
          ghost var before := buffer[..];
          if 0 <= destIndex < buffer.Length {
            buffer[destIndex] := PixelBit(bmp, srcIndex);
          }
          if fits {
            RowCol(y, x, width);
            forall k | 0 <= k < buffer.Length
              ensures buffer[k] == if WrittenBefore(rect, k / width, k % width, y, x + 1)
                                   then PixelBit(bmp, SourceIndex(width, k / width, k % width)) else old(buffer[k])
            {
              assert k == (k / width) * width + k % width;
              if k != destIndex {
                assert buffer[k] == before[k];
              }
            }
          }
          x := x + 1;
        }
        y := y + 1;
      }
      if fits {
        forall k | 0 <= k < buffer.Length
          ensures buffer[k] == ScreenAfter(old(buffer[..]), width, rect, bmp)[k]
        {
        }
      }
    }

    /** `clear`: a full-screen update with an empty image blanks the screen. */
    method Clear()
      requires Valid()
      modifies buffer
      ensures Valid() && forall k :: 0 <= k < buffer.Length ==> buffer[k] == 0
    {
      ghost var cells := buffer[..];
      Update(Rect(0, 0, width, height), []);
      ScreenAfterEmptyImage(cells, width, height);
      assert buffer[..] == seq(buffer.Length, _ => 0);
    }

    /** `suspend`: clear the screen. */
    method Suspend()
      requires Valid()
      modifies buffer
      ensures Valid() && forall k :: 0 <= k < buffer.Length ==> buffer[k] == 0
    {
      Clear();
    }
  }
}
