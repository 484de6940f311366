/** `CardBitmap`: the quantizer that turns an N x N intensity sample into N packed row words,
    the conversion of a 12-column bitmap back to gray bytes, and the fuzzy matcher that slides
    a template over a quantized capture and scores every alignment. */
module CardBitmap {
  import opened Basics
  import opened Packing

  // ---------------------------------------------------------------------------------------
  // Quantizer: `to_bitmap`

  /** Python's `min`. */
  function Min(s: seq<int>): (r: int)
    requires |s| > 0
    ensures forall i :: 0 <= i < |s| ==> r <= s[i]
  {
    if |s| == 1 then s[0] else var m := Min(s[1..]); if s[0] <= m then s[0] else m
  }

  /** Python's `max`. */
  function Max(s: seq<int>): (r: int)
    requires |s| > 0
    ensures forall i :: 0 <= i < |s| ==> s[i] <= r
  {
    if |s| == 1 then s[0] else var m := Max(s[1..]); if s[0] >= m then s[0] else m
  }

  /** `min` and `max` are attained: they are pixels of the sample. */
  lemma {:induction false} MinMaxAttained(s: seq<int>)
    requires |s| > 0
    ensures Min(s) in s && Max(s) in s
  {
    if |s| > 1 {
      MinMaxAttained(s[1..]);
    }
  }

  /** What `to_bitmap` can index: a square grid read as `image[row * height + col]`
      (`min` of an empty list raises, so the image is not empty). */
  predicate IsSample(image: seq<int>, width: nat, height: nat) {
    width == height && 0 < |image| && width * height <= |image|
  }

  lemma GridIndex(row: nat, col: nat, n: nat)
    requires row < n && col < n
    ensures row * n + col < n * n
  {
    assert row * n + col < row * n + n == (row + 1) * n <= n * n;
  }

  /** `int((v - amin) / (amax - amin) * 4)`, exact on integer pixels. */
  function Level(v: int, amin: int, amax: int): (r: nat)
    requires amin <= v < amax
    ensures r < 4
  {
    DivBelow(4 * (v - amin), amax - amin, 4);
    (4 * (v - amin)) / (amax - amin)
  }

  /** The level a pixel value `v` of this sample gets, with `amin = min(image)` and
      `amax = max(image) + 1`. */
  function LevelOf(image: seq<int>, v: int): (r: nat)
    requires |image| > 0 && Min(image) <= v <= Max(image)
  {
    Level(v, Min(image), Max(image) + 1)
  }

  /** `image[row * height + col]`. */
  function Pixel(image: seq<int>, width: nat, height: nat, row: nat, col: nat): (v: int)
    requires IsSample(image, width, height) && row < height && col < width
    ensures row * height + col < |image| && v == image[row * height + col]
    ensures Min(image) <= v <= Max(image)
  {
    GridIndex(row, col, height);
    image[row * height + col]
  }

  /** The levels of one row, left to right. */
  function RowLevels(image: seq<int>, width: nat, height: nat, row: nat): (r: seq<nat>)
    requires IsSample(image, width, height) && row < height
    ensures |r| == width && AllLevels(r)
  {
    seq(width, col requires 0 <= col < width => LevelOf(image, Pixel(image, width, height, row, col)))
  }

  /** The bitmap `to_bitmap` returns. */
  function Quantize(image: seq<int>, width: nat, height: nat): (b: seq<nat>)
    requires IsSample(image, width, height)
  {
    seq(height, row requires 0 <= row < height => Pack(RowLevels(image, width, height, row)))
  }

  /** `to_bitmap(image, width, height)`: normalises the sample and packs every row into one
      word, two bits per column, first column most significant. */
  method ToBitmap(image: seq<int>, width: nat, height: nat) returns (b: seq<nat>)
    requires IsSample(image, width, height)
    ensures b == Quantize(image, width, height)
  {
    b := seq(height, _ => 0);
    var amin := Min(image);
    var amax := Max(image) + 1;
    var row := 0;
    while row < height
      invariant 0 <= row <= height && |b| == height
      invariant forall r :: 0 <= r < row ==> b[r] == Pack(RowLevels(image, width, height, r))
      invariant forall r :: row <= r < height ==> b[r] == 0
    {
      ghost var levels := RowLevels(image, width, height, row);
      var col := 0;
      while col < width
        invariant 0 <= col <= width && |b| == height
        invariant b[row] == Pack(levels[..col])
        invariant forall r :: 0 <= r < row ==> b[r] == Pack(RowLevels(image, width, height, r))
        invariant forall r :: row < r < height ==> b[r] == 0
      {
        var v := Pixel(image, width, height, row, col);
        var a := (4 * (v - amin)) / (amax - amin);
        assert a == levels[col];
        assert levels[..col + 1][..col] == levels[..col];
        // (b[row] << 2) | (a & 3), with 0 <= a < 4
        b := b[row := b[row] * 4 + a % 4];
        col := col + 1;
      }
      assert levels[..width] == levels;
      row := row + 1;
    }
  }

  /** Division facts used for the levels. */
  lemma DivBelow(x: int, d: int, q: int)
    requires 0 <= x < q * d && d > 0
    ensures 0 <= x / d < q
  {
  }

  lemma DivExact(x: int, d: int, q: int)
    requires d > 0 && q * d <= x < (q + 1) * d
    ensures x / d == q
  {
    var k := x / d;
    assert k * d <= x < k * d + d;
    MulMonotone(q + 1, k, d);
    MulMonotone(k + 1, q, d);
    assert (q + 1) * d == q * d + d;
    assert (k + 1) * d == k * d + d;
  }

  lemma DivMonotone(x: int, y: int, d: int)
    requires 0 <= x <= y && d > 0
    ensures x / d <= y / d
  {
    var qx, qy := x / d, y / d;
    assert qx * d <= x < qx * d + d;
    assert qy * d <= y < qy * d + d;
    MulMonotone(qy + 1, qx, d);
    assert (qy + 1) * d == qy * d + d;
  }

  /** `to_bitmap` returns one word per row, every word holding `width` levels. */
  lemma QuantizeShape(image: seq<int>, width: nat, height: nat)
    requires IsSample(image, width, height)
    ensures |Quantize(image, width, height)| == height
    ensures forall r :: 0 <= r < height ==> Quantize(image, width, height)[r] < Pow4(width)
  {
    forall r | 0 <= r < height
      ensures Quantize(image, width, height)[r] < Pow4(width)
    {
      PackDigits(RowLevels(image, width, height, r));
    }
  }

  /** Packing order: column `col` of row `r` is the group `width - 1 - col` places from the
      right, i.e. `(b[r] >> 2 * (width - 1 - col)) & 3`, and it holds the pixel's level. */
  lemma QuantizedLevel(image: seq<int>, width: nat, height: nat, r: nat, col: nat)
    requires IsSample(image, width, height) && r < height && col < width
    ensures r * height + col < |image|
    ensures Digit(Quantize(image, width, height)[r], width - 1 - col)
         == LevelOf(image, image[r * height + col]) < 4
  {
    var levels := RowLevels(image, width, height, r);
    PackDigits(levels);
    assert Quantize(image, width, height)[r] == Pack(levels);
    assert levels[col] == LevelOf(image, Pixel(image, width, height, r, col));
  }

  /** The darkest pixel of a sample gets level 0. */
  lemma MinimumIsLevelZero(image: seq<int>)
    requires |image| > 0
    ensures LevelOf(image, Min(image)) == 0
  {
    var d := Max(image) + 1 - Min(image);
    assert 4 * (Min(image) - Min(image)) == 0;
    assert 0 / d == 0;
  }

  /** Levels are monotone in the pixel value. */
  lemma LevelMonotone(image: seq<int>, p: int, q: int)
    requires |image| > 0 && Min(image) <= p <= q <= Max(image)
    ensures LevelOf(image, p) <= LevelOf(image, q)
  {
    DivMonotone(4 * (p - Min(image)), 4 * (q - Min(image)), Max(image) + 1 - Min(image));
  }

  /** `amax = max + 1` keeps the brightest pixel below 4; once the sample spans at least 3
      intensity steps it does reach level 3. */
  lemma MaximumIsLevelThree(image: seq<int>)
    requires |image| > 0 && Max(image) - Min(image) >= 3
    ensures LevelOf(image, Max(image)) == 3
  {
    var d := Max(image) + 1 - Min(image);
    DivExact(4 * (Max(image) - Min(image)), d, 3);
  }

  lemma {:induction false} MinShift(image: seq<int>, shifted: seq<int>, c: int)
    requires |image| > 0 && |shifted| == |image|
    requires forall i :: 0 <= i < |image| ==> shifted[i] == image[i] + c
    ensures Min(shifted) == Min(image) + c && Max(shifted) == Max(image) + c
  {
    if |image| > 1 {
      MinShift(image[1..], shifted[1..], c);
    }
  }

  /** Normalisation is per sample: brightening or darkening every pixel by the same amount
      leaves the bitmap unchanged. */
  lemma QuantizeShiftInvariant(image: seq<int>, shifted: seq<int>, c: int, width: nat, height: nat)
    requires IsSample(image, width, height) && |shifted| == |image|
    requires forall i :: 0 <= i < |image| ==> shifted[i] == image[i] + c
    ensures IsSample(shifted, width, height)
    ensures Quantize(shifted, width, height) == Quantize(image, width, height)
  {
    MinShift(image, shifted, c);
    forall r | 0 <= r < height
      ensures Quantize(shifted, width, height)[r] == Quantize(image, width, height)[r]
    {
      RowShift(image, shifted, c, width, height, r);
    }
  }

  lemma RowShift(image: seq<int>, shifted: seq<int>, c: int, width: nat, height: nat, r: nat)
    requires IsSample(image, width, height) && |shifted| == |image| && r < height
    requires forall i :: 0 <= i < |image| ==> shifted[i] == image[i] + c
    requires Min(shifted) == Min(image) + c && Max(shifted) == Max(image) + c
    ensures RowLevels(shifted, width, height, r) == RowLevels(image, width, height, r)
  {
    var after, before := RowLevels(shifted, width, height, r), RowLevels(image, width, height, r);
    forall col | 0 <= col < width
      ensures after[col] == before[col]
    {
      GridIndex(r, col, height);
      var idx := r * height + col;
      assert shifted[idx] == image[idx] + c;
      CellShift(image, shifted, c, width, height, r, col);
    }
    assert after == before;
  }

  lemma CellShift(image: seq<int>, shifted: seq<int>, c: int, width: nat, height: nat, r: nat, col: nat)
    requires IsSample(image, width, height) && |shifted| == |image| && r < height && col < width
    requires r * height + col < |image| && shifted[r * height + col] == image[r * height + col] + c
    requires Min(shifted) == Min(image) + c && Max(shifted) == Max(image) + c
    ensures LevelOf(shifted, Pixel(shifted, width, height, r, col)) == LevelOf(image, Pixel(image, width, height, r, col))
  {
    var v := Pixel(image, width, height, r, col);
    ShiftedLevel(Min(image), Max(image) + 1, c, v);
  }

  lemma ShiftedLevel(lo: int, hi: int, c: int, v: int)
    requires lo <= v < hi
    ensures Level(v + c, lo + c, hi + c) == Level(v, lo, hi)
  {
    var x, d := 4 * (v - lo), hi - lo;
    assert Level(v + c, lo + c, hi + c) == x / d;
    assert Level(v, lo, hi) == x / d;
  }

  // ---------------------------------------------------------------------------------------
  // `to_grayscale` and `to_bytes`

  type Byte = x: int | 0 <= x < 256

  /** `to_grayscale`: twelve gray values per word, `85 * level`, first column first. */
  function ToGrayscale(bitmap: seq<nat>): (g: seq<seq<Byte>>)
    ensures |g| == |bitmap| && forall k :: 0 <= k < |g| ==> |g[k]| == 12
  {
    seq(|bitmap|, k requires 0 <= k < |bitmap| => GrayRow(bitmap[k]))
  }

  /** `[(r >> (22 - i * 2) & 3) * 85 for i in range(12)]`. */
  function GrayRow(w: nat): (row: seq<Byte>)
    ensures |row| == 12
  {
    seq(12, i requires 0 <= i < 12 => Shade(w, 11 - i))
  }

  /** `(w >> 2k & 3) * 85`. */
  function Shade(w: nat, k: nat): Byte {
    Digit(w, k) * 85
  }

  /** Gray values back to levels. */
  function Unshade(row: seq<Byte>): (levels: seq<nat>)
    ensures |levels| == |row|
  {
    seq(|row|, i requires 0 <= i < |row| => Unlevel(row[i]))
  }

  function Unlevel(g: Byte): nat {
    g / 85
  }

  function Flatten<T>(rows: seq<seq<T>>): seq<T> {
    if |rows| == 0 then [] else rows[0] + Flatten(rows[1..])
  }

  lemma {:induction false} FlattenLength<T>(rows: seq<seq<T>>, w: nat)
    requires forall j :: 0 <= j < |rows| ==> |rows[j]| == w
    ensures |Flatten(rows)| == w * |rows|
  {
    if |rows| > 0 {
      FlattenLength(rows[1..], w);
      assert w * |rows| == w + w * (|rows| - 1);
    }
  }

  /** Cell i of row k lands at position `w * k + i` of the concatenation. */
  lemma {:induction false} FlattenAt<T>(rows: seq<seq<T>>, w: nat, k: nat, i: nat)
    requires forall j :: 0 <= j < |rows| ==> |rows[j]| == w
    requires k < |rows| && i < w
    ensures w * k + i < |Flatten(rows)| && Flatten(rows)[w * k + i] == rows[k][i]
  {
    FlattenLength(rows, w);
    var tail := rows[1..];
    assert Flatten(rows) == rows[0] + Flatten(tail);
    if k > 0 {
      FlattenAt(tail, w, k - 1, i);
      var j := w * (k - 1) + i;
      assert w * k + i == w + j;
      assert tail[k - 1] == rows[k];
    }
  }

  /** `to_bytes`: the gray rows concatenated. */
  function ToBytes(bitmap: seq<nat>): seq<Byte> {
    Flatten(ToGrayscale(bitmap))
  }

  /** Every gray value is one of the four quantization shades. */
  lemma GrayscaleShades(bitmap: seq<nat>, k: nat, i: nat)
    requires k < |bitmap| && i < 12
    ensures ToGrayscale(bitmap)[k][i] in {0, 85, 170, 255}
  {
  }

  /** `to_bytes` yields twelve bytes per row, row-major. */
  lemma ToBytesAt(bitmap: seq<nat>, k: nat, i: nat)
    requires k < |bitmap| && i < 12
    ensures |ToBytes(bitmap)| == 12 * |bitmap|
    ensures ToBytes(bitmap)[12 * k + i] == ToGrayscale(bitmap)[k][i]
  {
    FlattenLength(ToGrayscale(bitmap), 12);
    FlattenAt(ToGrayscale(bitmap), 12, k, i);
  }

  /** On a 12x12 sample `to_grayscale` undoes `to_bitmap`: the gray value of a cell is 85 times
      the level of the pixel it came from. */
  lemma GrayscaleOfBitmap(image: seq<int>, r: nat, col: nat)
    requires IsSample(image, 12, 12) && r < 12 && col < 12
    ensures r * 12 + col < |image|
    ensures ToGrayscale(Quantize(image, 12, 12))[r][col] == 85 * LevelOf(image, image[r * 12 + col])
  {
    QuantizeShape(image, 12, 12);
    QuantizedLevel(image, 12, 12, r, col);
  }

  /** Dividing the gray values by 85 and packing them again gives back every word of at most
      24 bits, so `to_grayscale` loses nothing on the templates. */
  lemma GrayscaleRoundTrip(bitmap: seq<nat>, k: nat)
    requires k < |bitmap| && bitmap[k] < Pow4(12)
    ensures Pack(Unshade(ToGrayscale(bitmap)[k])) == bitmap[k]
  {
    var levels := Unshade(ToGrayscale(bitmap)[k]);
    forall i | 0 <= i < 12
      ensures levels[i] == Digits(bitmap[k], 12)[i]
    {
      assert ToGrayscale(bitmap)[k][i] == Digit(bitmap[k], 11 - i) * 85;
    }
    assert levels == Digits(bitmap[k], 12);
    PackOfDigits(bitmap[k], 12);
  }

  // ---------------------------------------------------------------------------------------
  // Fuzzy matcher: `difference`

  /** The row weights `WEIGHT = [1, 1, 1, 1.2, 2, 1.5, 1, 1.1, 2, 2, 1.5, 1.5]`, times ten, so
      that every score below is ten times the program's. */
  const Weight10: seq<nat> := [10, 10, 10, 12, 20, 15, 10, 11, 20, 20, 15, 15]

  /** What `difference` returns: it raises when the capture is smaller than the template,
      otherwise it returns a score (here in tenths). */
  datatype Diff = TooSmall | Score(tenths: nat)

  /** A template the weight table can score, against a capture at least as large. */
  predicate Fits(bitmap: seq<nat>, target: seq<nat>) {
    |target| <= |bitmap| && |target| <= |Weight10|
  }

  /** The number of offsets along each axis, `N + 1 - M`. */
  function Span(bitmap: seq<nat>, target: seq<nat>): nat
    requires Fits(bitmap, target)
  {
    |bitmap| + 1 - |target|
  }

  /** `w & ((1 << 2 * m) - 1)`: the m low groups of w, taken one group at a time. */
  function Low(w: nat, m: nat): (r: nat)
    ensures r < Pow4(m)
  {
    if m == 0 then 0 else Low(w / 4, m - 1) * 4 + w % 4
  }

  /** `word >> (2 * dx) & mask` with `mask = (1 << 2 * m) - 1`: the m columns that end dx
      columns from the right. */
  function Window(word: nat, dx: nat, m: nat): (r: nat)
    ensures r < Pow4(m)
  {
    Low(Shr2(word, dx), m)
  }

  /** The unweighted difference of template row `row` against capture row `row + dy`: the sum of
      the 2-bit groups of `a ^ b`. */
  function RowDiff(bitmap: seq<nat>, target: seq<nat>, dx: nat, dy: nat, row: nat): nat
    requires row < |target| && dy + |target| <= |bitmap|
  {
    GroupSum(Xor(Window(bitmap[row + dy], dx, |target|), target[row]))
  }

  /** The weighted difference of the first `rows` template rows at offset (dx, dy). */
  function PartialScore(bitmap: seq<nat>, target: seq<nat>, dx: nat, dy: nat, rows: nat): nat
    requires rows <= |target| <= |Weight10| && dy + |target| <= |bitmap|
  {
    if rows == 0 then 0
    else PartialScore(bitmap, target, dx, dy, rows - 1) + RowDiff(bitmap, target, dx, dy, rows - 1) * Weight10[rows - 1]
  }

  /** The score `diff` of offset (dx, dy). */
  function OffsetScore(bitmap: seq<nat>, target: seq<nat>, dx: nat, dy: nat): nat
    requires |target| <= |Weight10| && dy + |target| <= |bitmap|
  {
    PartialScore(bitmap, target, dx, dy, |target|)
  }

  /** The near-exact threshold `diff < M`, in tenths. */
  function Threshold(target: seq<nat>): nat {
    10 * |target|
  }

  /** The initial `min_diff = 4 * M * M`, in tenths. */
  function Ceiling(target: seq<nat>): nat {
    40 * |target| * |target|
  }

  /** How the inner `dy` loop for one `dx` ends: by the early `return`, or by running through
      with the running minimum. */
  datatype Scan = Early(score: nat) | Through(best: nat)

  /** The inner loop from `dy` on, with running minimum `best`. */
  function ScanDy(bitmap: seq<nat>, target: seq<nat>, dx: nat, dy: nat, best: nat): Scan
    requires Fits(bitmap, target) && dx < Span(bitmap, target) && dy <= Span(bitmap, target)
    decreases Span(bitmap, target) - dy
  {
    if dy == Span(bitmap, target) then Through(best)
    else
      var score := OffsetScore(bitmap, target, dx, dy);
      if score < Threshold(target) then Early(score)
      else ScanDy(bitmap, target, dx, dy + 1, if score < best then score else best)
  }

  /** The outer loop from `dx` on, with running minimum `best`. */
  function ScanDx(bitmap: seq<nat>, target: seq<nat>, dx: nat, best: nat): nat
    requires Fits(bitmap, target) && dx <= Span(bitmap, target)
    decreases Span(bitmap, target) - dx
  {
    if dx == Span(bitmap, target) then best
    else
      match ScanDy(bitmap, target, dx, 0, best)
      case Early(score) => score
      case Through(b) => ScanDx(bitmap, target, dx + 1, b)
  }

  /** The value of `difference(bitmap, target)`. */
  function DifferenceOf(bitmap: seq<nat>, target: seq<nat>): (r: Diff)
    requires |target| <= |bitmap| ==> |target| <= |Weight10|
    ensures r.TooSmall? <==> |bitmap| < |target|
  {
    if |bitmap| < |target| then TooSmall else Score(ScanDx(bitmap, target, 0, Ceiling(target)))
  }

  /** `difference(bitmap, target)`: slides the template over every offset, dx outer and dy
      inner, and returns the first score below the threshold or else the smallest score. */
  method Difference(bitmap: seq<nat>, target: seq<nat>) returns (r: Diff)
    requires |target| <= |bitmap| ==> |target| <= |Weight10|
    ensures r == DifferenceOf(bitmap, target)
  {
    var n, m := |bitmap|, |target|;
    if n < m {
      return TooSmall;
    }
    var minDiff: nat := 4 * m * m * 10;
    assert minDiff == Ceiling(target);
    var dx := 0;
    while dx < n + 1 - m
      invariant 0 <= dx <= n + 1 - m
      invariant ScanDx(bitmap, target, dx, minDiff) == ScanDx(bitmap, target, 0, Ceiling(target))
    {
      ghost var start: nat := minDiff;
      var dy := 0;
      while dy < n + 1 - m
        invariant 0 <= dy <= n + 1 - m
        invariant ScanDy(bitmap, target, dx, dy, minDiff) == ScanDy(bitmap, target, dx, 0, start)
      {
        var diff := OffsetDifference(bitmap, target, dx, dy);
        if diff < 10 * m {
          return Score(diff);
        } else if diff < minDiff {
          minDiff := diff;
        }
        dy := dy + 1;
      }
      dx := dx + 1;
    }
    return Score(minDiff);
  }

  /** The body of the `dy` loop: the weighted sum over the template rows at one offset. */
  method OffsetDifference(bitmap: seq<nat>, target: seq<nat>, dx: nat, dy: nat) returns (diff: nat)
    requires |target| <= |Weight10| && dy + |target| <= |bitmap|
    ensures diff == OffsetScore(bitmap, target, dx, dy)
  {
    var m := |target|;
    var mask := Pow4(m) - 1;
    diff := 0;
    var row := 0;
    while row < m
      invariant 0 <= row <= m
      invariant diff == PartialScore(bitmap, target, dx, dy, row)
    {
      var s := MaskedRowDiff(bitmap, target, dx, dy, row, mask);
      diff := diff + s * Weight10[row];
      row := row + 1;
    }
  }

  /** One pass of the row loop before weighting: mask the shifted capture row, xor it with the
      template row and sum the 2-bit groups. */
  method MaskedRowDiff(bitmap: seq<nat>, target: seq<nat>, dx: nat, dy: nat, row: nat, mask: nat)
    returns (s: nat)
    requires row < |target| && dy + |target| <= |bitmap| && mask == Pow4(|target|) - 1
    ensures s == RowDiff(bitmap, target, dx, dy, row)
  {
    var a := Shr2(bitmap[row + dy], dx) % (mask + 1);
    assert a == Window(bitmap[row + dy], dx, |target|) by {
      LowIsMask(Shr2(bitmap[row + dy], dx), |target|);
    }
    var b := target[row];
    s := SumGroups(Xor(a, b));
  }

  /** `s = 0; while d > 0: s += d & 3; d >>= 2`. */
  method SumGroups(d0: nat) returns (s: nat)
    ensures s == GroupSum(d0)
  {
    var d := d0;
    s := 0;
    while d > 0
      invariant s + GroupSum(d) == GroupSum(d0)
    {
      s := s + d % 4;
      d := d / 4;
    }
  }

  // ---------------------------------------------------------------------------------------
  // What `difference` computes

  /** (dx, dy) is one of the offsets the two loops visit. */
  predicate ValidOffset(bitmap: seq<nat>, target: seq<nat>, dx: nat, dy: nat) {
    Fits(bitmap, target) && dx < Span(bitmap, target) && dy < Span(bitmap, target)
  }

  /** (dx, dy) is visited before (dx0, dy0): dx is the outer loop. */
  predicate Before(dx: nat, dy: nat, dx0: nat, dy0: nat) {
    dx < dx0 || (dx == dx0 && dy < dy0)
  }

  lemma {:induction false} ScanDyBound(bitmap: seq<nat>, target: seq<nat>, dx: nat, dy: nat, best: nat)
    requires Fits(bitmap, target) && dx < Span(bitmap, target) && dy <= Span(bitmap, target)
    ensures ScanDy(bitmap, target, dx, dy, best).Early? ==> ScanDy(bitmap, target, dx, dy, best).score < Threshold(target)
    ensures ScanDy(bitmap, target, dx, dy, best).Through? ==> ScanDy(bitmap, target, dx, dy, best).best <= best
    decreases Span(bitmap, target) - dy
  {
    if dy < Span(bitmap, target) {
      var score := OffsetScore(bitmap, target, dx, dy);
      if score >= Threshold(target) {
        ScanDyBound(bitmap, target, dx, dy + 1, if score < best then score else best);
      }
    }
  }

  lemma {:induction false} ScanDxBound(bitmap: seq<nat>, target: seq<nat>, dx: nat, best: nat)
    requires Fits(bitmap, target) && dx <= Span(bitmap, target)
    ensures ScanDx(bitmap, target, dx, best) <= best || ScanDx(bitmap, target, dx, best) < Threshold(target)
    decreases Span(bitmap, target) - dx
  {
    if dx < Span(bitmap, target) {
      ScanDyBound(bitmap, target, dx, 0, best);
      match ScanDy(bitmap, target, dx, 0, best)
      case Early(_) =>
      case Through(b) => ScanDxBound(bitmap, target, dx + 1, b);
    }
  }

  /** `difference` raises exactly when the capture is smaller than the template; otherwise its
      score never exceeds the initial `min_diff = 4 * M * M`. */
  lemma DifferenceBounded(bitmap: seq<nat>, target: seq<nat>)
    requires |target| <= |bitmap| ==> |target| <= |Weight10|
    ensures DifferenceOf(bitmap, target).TooSmall? <==> |bitmap| < |target|
    ensures DifferenceOf(bitmap, target).Score? ==> DifferenceOf(bitmap, target).tenths <= Ceiling(target)
  {
    if |target| <= |bitmap| {
      ScanDxBound(bitmap, target, 0, Ceiling(target));
      var m := |target|;
      if m > 0 {
        MulMonotone(1, m, 10 * m);
        assert 10 * m <= 10 * m * m;
      }
    }
  }

  lemma {:induction false} ScanDyBelow(bitmap: seq<nat>, target: seq<nat>, dx: nat, dy: nat, best: nat, y0: nat)
    requires Fits(bitmap, target) && dx < Span(bitmap, target) && dy <= y0 < Span(bitmap, target)
    requires OffsetScore(bitmap, target, dx, y0) < Threshold(target)
    ensures ScanDy(bitmap, target, dx, dy, best).Early?
    decreases Span(bitmap, target) - dy
  {
    var score := OffsetScore(bitmap, target, dx, dy);
    if score >= Threshold(target) {
      ScanDyBelow(bitmap, target, dx, dy + 1, if score < best then score else best, y0);
    }
  }

  lemma {:induction false} ScanDxBelow(bitmap: seq<nat>, target: seq<nat>, dx: nat, best: nat, x0: nat, y0: nat)
    requires ValidOffset(bitmap, target, x0, y0) && dx <= x0
    requires OffsetScore(bitmap, target, x0, y0) < Threshold(target)
    ensures ScanDx(bitmap, target, dx, best) < Threshold(target)
    decreases Span(bitmap, target) - dx
  {
    ScanDyBound(bitmap, target, dx, 0, best);
    match ScanDy(bitmap, target, dx, 0, best)
    case Early(_) =>
    case Through(b) =>
      if dx == x0 {
        ScanDyBelow(bitmap, target, dx, 0, best, y0);
      } else {
        ScanDxBelow(bitmap, target, dx + 1, b, x0, y0);
      }
  }

  /** If any offset scores below the threshold `M`, so does `difference`. */
  lemma MatchBelowThreshold(bitmap: seq<nat>, target: seq<nat>, dx: nat, dy: nat)
    requires ValidOffset(bitmap, target, dx, dy)
    requires OffsetScore(bitmap, target, dx, dy) < Threshold(target)
    ensures DifferenceOf(bitmap, target).Score?
    ensures DifferenceOf(bitmap, target).tenths < Threshold(target)
  {
    ScanDxBelow(bitmap, target, 0, Ceiling(target), dx, dy);
  }

  lemma {:induction false} ScanDyReaches(bitmap: seq<nat>, target: seq<nat>, dx: nat, dy: nat, best: nat, y0: nat)
    requires Fits(bitmap, target) && dx < Span(bitmap, target) && dy <= y0 < Span(bitmap, target)
    requires OffsetScore(bitmap, target, dx, y0) < Threshold(target)
    requires forall y :: dy <= y < y0 ==> OffsetScore(bitmap, target, dx, y) >= Threshold(target)
    ensures ScanDy(bitmap, target, dx, dy, best) == Early(OffsetScore(bitmap, target, dx, y0))
    decreases y0 - dy
  {
    var score := OffsetScore(bitmap, target, dx, dy);
    if dy < y0 {
      ScanDyReaches(bitmap, target, dx, dy + 1, if score < best then score else best, y0);
    }
  }

  lemma {:induction false} ScanDyPasses(bitmap: seq<nat>, target: seq<nat>, dx: nat, dy: nat, best: nat)
    requires Fits(bitmap, target) && dx < Span(bitmap, target) && dy <= Span(bitmap, target)
    requires forall y :: dy <= y < Span(bitmap, target) ==> OffsetScore(bitmap, target, dx, y) >= Threshold(target)
    ensures ScanDy(bitmap, target, dx, dy, best).Through?
    ensures var b := ScanDy(bitmap, target, dx, dy, best).best;
      && b <= best
      && (forall y :: dy <= y < Span(bitmap, target) ==> b <= OffsetScore(bitmap, target, dx, y))
      && (b == best || exists y :: dy <= y < Span(bitmap, target) && b == OffsetScore(bitmap, target, dx, y))
    decreases Span(bitmap, target) - dy
  {
    if dy < Span(bitmap, target) {
      var score := OffsetScore(bitmap, target, dx, dy);
      ScanDyPasses(bitmap, target, dx, dy + 1, if score < best then score else best);
    }
  }

  lemma {:induction false} ScanDxReaches(bitmap: seq<nat>, target: seq<nat>, dx: nat, best: nat, x0: nat, y0: nat)
    requires ValidOffset(bitmap, target, x0, y0) && dx <= x0
    requires OffsetScore(bitmap, target, x0, y0) < Threshold(target)
    requires forall x, y :: dx <= x && ValidOffset(bitmap, target, x, y) && Before(x, y, x0, y0) ==>
      OffsetScore(bitmap, target, x, y) >= Threshold(target)
    ensures ScanDx(bitmap, target, dx, best) == OffsetScore(bitmap, target, x0, y0)
    decreases x0 - dx
  {
    if dx == x0 {
      forall y | 0 <= y < y0
        ensures OffsetScore(bitmap, target, dx, y) >= Threshold(target)
      {
        assert ValidOffset(bitmap, target, dx, y) && Before(dx, y, x0, y0);
      }
      ScanDyReaches(bitmap, target, dx, 0, best, y0);
    } else {
      forall y | 0 <= y < Span(bitmap, target)
        ensures OffsetScore(bitmap, target, dx, y) >= Threshold(target)
      {
        assert ValidOffset(bitmap, target, dx, y) && Before(dx, y, x0, y0);
      }
      ScanDyPasses(bitmap, target, dx, 0, best);
      ScanDxReaches(bitmap, target, dx + 1, ScanDy(bitmap, target, dx, 0, best).best, x0, y0);
    }
  }

  /** Early exit: the score of the first offset, in loop order, that scores below the
      threshold is what `difference` returns. */
  lemma FirstMatchWins(bitmap: seq<nat>, target: seq<nat>, dx0: nat, dy0: nat)
    requires ValidOffset(bitmap, target, dx0, dy0)
    requires OffsetScore(bitmap, target, dx0, dy0) < Threshold(target)
    requires forall dx, dy :: ValidOffset(bitmap, target, dx, dy) && Before(dx, dy, dx0, dy0) ==>
      OffsetScore(bitmap, target, dx, dy) >= Threshold(target)
    ensures DifferenceOf(bitmap, target) == Score(OffsetScore(bitmap, target, dx0, dy0))
  {
    ScanDxReaches(bitmap, target, 0, Ceiling(target), dx0, dy0);
  }

  lemma {:induction false} ScanDxPasses(bitmap: seq<nat>, target: seq<nat>, dx: nat, best: nat)
    requires Fits(bitmap, target) && dx <= Span(bitmap, target)
    requires forall x, y :: dx <= x && ValidOffset(bitmap, target, x, y) ==>
      OffsetScore(bitmap, target, x, y) >= Threshold(target)
    ensures var r := ScanDx(bitmap, target, dx, best);
      && r <= best
      && (forall x, y :: dx <= x && ValidOffset(bitmap, target, x, y) ==> r <= OffsetScore(bitmap, target, x, y))
      && (r == best || exists x, y :: dx <= x && ValidOffset(bitmap, target, x, y) && r == OffsetScore(bitmap, target, x, y))
    decreases Span(bitmap, target) - dx
  {
    if dx < Span(bitmap, target) {
      forall y | 0 <= y < Span(bitmap, target)
        ensures OffsetScore(bitmap, target, dx, y) >= Threshold(target)
      {
        assert ValidOffset(bitmap, target, dx, y);
      }
      ScanDyPasses(bitmap, target, dx, 0, best);
      var b := ScanDy(bitmap, target, dx, 0, best).best;
      ScanDxPasses(bitmap, target, dx + 1, b);
      var r := ScanDx(bitmap, target, dx + 1, b);
      assert r == ScanDx(bitmap, target, dx, best);
      forall x, y | dx <= x && ValidOffset(bitmap, target, x, y)
        ensures r <= OffsetScore(bitmap, target, x, y)
      {
        if x == dx {
          assert b <= OffsetScore(bitmap, target, dx, y);
        }
      }
      if r != best && r == b {
        var y :| 0 <= y < Span(bitmap, target) && b == OffsetScore(bitmap, target, dx, y);
        assert ValidOffset(bitmap, target, dx, y);
      }
    }
  }

  /** Without a near-exact match `difference` returns the smallest score over all offsets, or
      the initial `4 * M * M` when every score is larger. */
  lemma NoMatchGivesMinimum(bitmap: seq<nat>, target: seq<nat>)
    requires Fits(bitmap, target)
    requires forall dx, dy :: ValidOffset(bitmap, target, dx, dy) ==>
      OffsetScore(bitmap, target, dx, dy) >= Threshold(target)
    ensures var r := DifferenceOf(bitmap, target).tenths;
      && (forall dx, dy :: ValidOffset(bitmap, target, dx, dy) ==> r <= OffsetScore(bitmap, target, dx, dy))
      && (r == Ceiling(target) || exists dx, dy :: ValidOffset(bitmap, target, dx, dy) && r == OffsetScore(bitmap, target, dx, dy))
  {
    ScanDxPasses(bitmap, target, 0, Ceiling(target));
  }

  // ---------------------------------------------------------------------------------------
  // A template embedded in the capture

  lemma {:induction false} PartialScoreZero(bitmap: seq<nat>, target: seq<nat>, dx: nat, dy: nat, rows: nat)
    requires rows <= |target| <= |Weight10| && dy + |target| <= |bitmap|
    requires forall row :: 0 <= row < rows ==> Window(bitmap[row + dy], dx, |target|) == target[row]
    ensures PartialScore(bitmap, target, dx, dy, rows) == 0
  {
    if rows > 0 {
      PartialScoreZero(bitmap, target, dx, dy, rows - 1);
      XorSelf(target[rows - 1]);
      GroupSumZero(0);
    }
  }

  /** When every window at (dx, dy) equals the template's row, the offset scores 0 ... */
  lemma EmbeddedScoresZero(bitmap: seq<nat>, target: seq<nat>, dx: nat, dy: nat)
    requires ValidOffset(bitmap, target, dx, dy)
    requires forall row :: 0 <= row < |target| ==> Window(bitmap[row + dy], dx, |target|) == target[row]
    ensures OffsetScore(bitmap, target, dx, dy) == 0
  {
    PartialScoreZero(bitmap, target, dx, dy, |target|);
  }

  /** ... so `difference` reports a match below the threshold. */
  lemma EmbeddedTemplateMatches(bitmap: seq<nat>, target: seq<nat>, dx: nat, dy: nat)
    requires ValidOffset(bitmap, target, dx, dy) && 0 < |target|
    requires forall row :: 0 <= row < |target| ==> Window(bitmap[row + dy], dx, |target|) == target[row]
    ensures DifferenceOf(bitmap, target).Score?
    ensures DifferenceOf(bitmap, target).tenths < Threshold(target)
  {
    EmbeddedScoresZero(bitmap, target, dx, dy);
    MatchBelowThreshold(bitmap, target, dx, dy);
  }

  lemma ModExact(a: nat, d: nat, q: nat, r: nat)
    requires 0 < d && a == q * d + r && r < d
    ensures a % d == r
  {
    DivExact(a, d, q);
  }

  lemma {:induction false} ShrPack(levels: seq<nat>, k: nat)
    requires AllLevels(levels) && k <= |levels|
    ensures Shr2(Pack(levels), k) == Pack(levels[..|levels| - k])
    decreases k
  {
    if k > 0 {
      var n := |levels|;
      var front := levels[..n - 1];
      assert Pack(levels) == Pack(front) * 4 + levels[n - 1];
      assert Pack(levels) / 4 == Pack(front);
      assert AllLevels(front);
      ShrPack(front, k - 1);
      assert front[..|front| - (k - 1)] == levels[..n - k];
    } else {
      assert levels[..|levels|] == levels;
    }
  }

  /** Appending a group: the remainder modulo `4 * p` of `x * 4 + l` keeps the low part of x. */
  lemma ModScale(x: nat, p: nat, l: nat)
    requires 0 < p && l < 4
    ensures (x * 4 + l) % (4 * p) == (x % p) * 4 + l
  {
    var q := x / p;
    var r := x % p;
    assert x == q * p + r;
    assert x * 4 + l == q * (4 * p) + (r * 4 + l);
    assert r * 4 + l < 4 * p;
    ModExact(x * 4 + l, 4 * p, q, r * 4 + l);
  }

  /** The last m levels are the last m - 1 levels of the front, then the last level. */
  lemma PackSuffixStep(levels: seq<nat>, m: nat)
    requires 0 < m <= |levels|
    ensures var n := |levels|;
      Pack(levels[n - m..]) == Pack(levels[..n - 1][n - 1 - (m - 1)..]) * 4 + levels[n - 1]
  {
    var n := |levels|;
    var tail := levels[n - m..];
    assert tail[..|tail| - 1] == levels[..n - 1][n - 1 - (m - 1)..];
  }

  /** The group-by-group low part is the program's mask: `w & ((1 << 2m) - 1) == w % 4^m`. */
  lemma {:induction false} LowIsMask(w: nat, m: nat)
    ensures Low(w, m) == w % Pow4(m)
  {
    if m > 0 {
      LowIsMask(w / 4, m - 1);
      assert w == (w / 4) * 4 + w % 4;
      ModScale(w / 4, Pow4(m - 1), w % 4);
    }
  }

  /** The low m groups of a packed row are its last m levels. */
  lemma {:induction false} LowPack(levels: seq<nat>, m: nat)
    requires AllLevels(levels) && m <= |levels|
    ensures Low(Pack(levels), m) == Pack(levels[|levels| - m..])
    decreases m
  {
    var n := |levels|;
    if m == 0 {
      assert levels[n..] == [];
    } else {
      var front := levels[..n - 1];
      assert AllLevels(front);
      assert Pack(levels) == Pack(front) * 4 + levels[n - 1];
      assert Pack(levels) / 4 == Pack(front) && Pack(levels) % 4 == levels[n - 1];
      LowPack(front, m - 1);
      PackSuffixStep(levels, m);
    }
  }

  lemma SuffixOfPrefix<T>(s: seq<T>, k: nat, m: nat)
    requires m <= k <= |s|
    ensures s[..k][k - m..] == s[k - m..k]
  {
  }

  /** The window at column offset dx of a packed row holds the levels of the columns
      `[n - dx - m, n - dx)`: offset 0 is the rightmost M columns. */
  lemma WindowOfPackedRow(levels: seq<nat>, dx: nat, m: nat)
    requires AllLevels(levels) && dx + m <= |levels|
    ensures Window(Pack(levels), dx, m) == Pack(levels[|levels| - dx - m..|levels| - dx])
  {
    var n := |levels|;
    var kept := levels[..n - dx];
    assert AllLevels(kept);
    ShrPack(levels, dx);
    LowPack(kept, m);
    SuffixOfPrefix(levels, n - dx, m);
  }

  /** A quantized capture containing the template's levels in its columns `[n - dx - M, n - dx)`
      and rows `[dy, dy + M)` matches that template. */
  lemma CaptureContainingTemplate(image: seq<int>, n: nat, target: seq<nat>, tlevels: seq<seq<nat>>, dx: nat, dy: nat)
    requires IsSample(image, n, n)
    requires 0 < |target| == |tlevels| <= |Weight10| && dx + |target| <= n && dy + |target| <= n
    requires forall i :: 0 <= i < |tlevels| ==> target[i] == Pack(tlevels[i])
    requires forall i :: 0 <= i < |tlevels| ==>
      RowLevels(image, n, n, dy + i)[n - dx - |target|..n - dx] == tlevels[i]
    ensures DifferenceOf(Quantize(image, n, n), target).Score?
    ensures DifferenceOf(Quantize(image, n, n), target).tenths < Threshold(target)
  {
    var bitmap := Quantize(image, n, n);
    var m := |target|;
    assert |bitmap| == n;
    forall row | 0 <= row < m
      ensures Window(bitmap[row + dy], dx, m) == target[row]
    {
      var levels := RowLevels(image, n, n, dy + row);
      assert bitmap[row + dy] == Pack(levels);
      WindowOfPackedRow(levels, dx, m);
      assert levels[n - dx - m..n - dx] == tlevels[row];
    }
    EmbeddedTemplateMatches(bitmap, target, dx, dy);
  }

  // ---------------------------------------------------------------------------------------
  // compare

  /** The index kept by `argmin`'s loop: the first position of a smallest value, 0 for an
      empty list. */
  function ArgMin(s: seq<nat>): (r: nat)
    ensures 0 < |s| ==> r < |s|
  {
    if |s| <= 1 then 0
    else
      var a := ArgMin(s[..|s| - 1]);
      if s[|s| - 1] < s[a] then |s| - 1 else a
  }

  lemma {:induction false} ArgMinIsFirstMinimum(s: seq<nat>)
    requires 0 < |s|
    ensures forall j :: 0 <= j < |s| ==> s[ArgMin(s)] <= s[j]
    ensures forall j :: 0 <= j < ArgMin(s) ==> s[ArgMin(s)] < s[j]
  {
    if |s| > 1 {
      var front := s[..|s| - 1];
      ArgMinIsFirstMinimum(front);
      assert forall j :: 0 <= j < |front| ==> front[j] == s[j];
    }
  }

  /** a is the first position of a smallest value of s. */
  predicate FirstMinimum(s: seq<nat>, a: nat) {
    && a < |s|
    && (forall j :: 0 <= j < |s| ==> s[a] <= s[j])
    && (forall j :: 0 <= j < a ==> s[a] < s[j])
  }

  /** The first minimum is unique, and it is what `argmin` finds. */
  lemma ArgMinIsTheFirstMinimum(s: seq<nat>, a: nat)
    requires 0 < |s|
    ensures FirstMinimum(s, a) <==> a == ArgMin(s)
  {
    ArgMinIsFirstMinimum(s);
  }

  lemma ArgMinStep(s: seq<nat>, k: nat)
    requires 1 <= k < |s|
    ensures ArgMin(s[..k]) < k
    ensures ArgMin(s[..k + 1]) == if s[k] < s[ArgMin(s[..k])] then k else ArgMin(s[..k])
  {
    assert s[..k + 1][..k] == s[..k];
  }

  /** Some template is larger than the capture, so `difference` raises for it. */
  predicate SomeTooLarge(cards: seq<seq<nat>>, size: nat) {
    exists i :: 0 <= i < |cards| && size < |cards[i]|
  }

  /** The score of each template against the bitmap, in template order. */
  function TemplateScores(bitmap: seq<nat>, cards: seq<seq<nat>>): (r: seq<nat>)
    requires forall i :: 0 <= i < |cards| ==> |cards[i]| <= |bitmap| && |cards[i]| <= |Weight10|
    ensures |r| == |cards|
  {
    seq(|cards|, i requires 0 <= i < |cards| => DifferenceOf(bitmap, cards[i]).tenths)
  }

  datatype Comparison = Raised | Compared(argmin: nat, diffs: seq<nat>)

  /** `compare`: quantizes the capture, scores every template and keeps the index of the first
      smallest score; it raises when a template is larger than the capture. */
  method Compare(data: seq<int>, size: nat, cards: seq<seq<nat>>) returns (r: Comparison)
    requires IsSample(data, size, size)
    requires forall i :: 0 <= i < |cards| && |cards[i]| <= size ==> |cards[i]| <= |Weight10|
    ensures r.Raised? <==> SomeTooLarge(cards, size)
    ensures r.Compared? ==>
      && r.diffs == TemplateScores(Quantize(data, size, size), cards)
      && r.argmin == ArgMin(r.diffs)
  {
    var bitmap := ToBitmap(data, size, size);
    assert |bitmap| == size;
    var diffs: seq<nat> := [];
    var i := 0;
    while i < |cards|
      invariant 0 <= i <= |cards| && |diffs| == i
      invariant forall j :: 0 <= j < i ==> |cards[j]| <= size
      invariant forall j :: 0 <= j < i ==> diffs[j] == DifferenceOf(bitmap, cards[j]).tenths
    {
      var d := Difference(bitmap, cards[i]);
      if d.TooSmall? {
        return Raised;
      }
      diffs := diffs + [d.tenths];
      i := i + 1;
    }
    assert diffs == TemplateScores(bitmap, cards);
    var argmin := FirstArgMin(diffs);
    return Compared(argmin, diffs);
  }

  /** The second loop of `compare`: a later score replaces the kept one only when it is
      strictly smaller. */
  method FirstArgMin(diffs: seq<nat>) returns (argmin: nat)
    ensures argmin == ArgMin(diffs)
  {
    argmin := 0;
    if |diffs| == 0 {
      return;
    }
    var k := 1;
    while k < |diffs|
      invariant 1 <= k <= |diffs| && argmin == ArgMin(diffs[..k])
    {
      ArgMinStep(diffs, k);
      if diffs[k] < diffs[argmin] {
        argmin := k;
      }
      k := k + 1;
    }
    assert diffs[..k] == diffs;
  }

  /** What the two results of `compare` mean: every score belongs to its template, and the
      index returned is the first template whose score is smallest. */
  lemma ComparedMeaning(bitmap: seq<nat>, cards: seq<seq<nat>>)
    requires 0 < |cards|
    requires forall i :: 0 <= i < |cards| ==> |cards[i]| <= |bitmap| && |cards[i]| <= |Weight10|
    ensures var diffs := TemplateScores(bitmap, cards);
      var a := ArgMin(diffs);
      && a < |cards|
      && (forall j :: 0 <= j < |cards| ==> DifferenceOf(bitmap, cards[a]).tenths <= DifferenceOf(bitmap, cards[j]).tenths)
      && (forall j :: 0 <= j < a ==> DifferenceOf(bitmap, cards[a]).tenths < DifferenceOf(bitmap, cards[j]).tenths)
  {
    var diffs := TemplateScores(bitmap, cards);
    ArgMinIsFirstMinimum(diffs);
    assert forall j :: 0 <= j < |cards| ==> diffs[j] == DifferenceOf(bitmap, cards[j]).tenths;
  }
}
