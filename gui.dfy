/** Slot geometry of the desk, the screenshot scale and the grid loop that reads every slot
    (Gui.py). Integer settings come from the GUI's spin boxes; the arithmetic done in floating
    point by the program is done here over exact reals. */
module Gui {
  import opened Basics
  import opened Cards
  import opened CardBitmap
  import Templates

  // ---------------------------------------------------------------------------------------
  // Python's rounding functions

  /** `math.ceil`. */
  function Ceil(x: real): (r: int)
    ensures (r as real) - 1.0 < x <= r as real
  {
    -((-x).Floor)
  }

  /** `int(x)` on a float: truncation toward zero. */
  function Trunc(x: real): (r: int)
    ensures 0.0 <= x ==> 0 <= r && r as real <= x < r as real + 1.0
    ensures x < 0.0 ==> r <= 0 && r as real - 1.0 < x <= r as real
  {
    if x >= 0.0 then x.Floor else Ceil(x)
  }

  /** `round(x)`: the nearest integer, ties going to the even one. */
  function RoundHalfEven(x: real): (r: int)
    ensures -0.5 <= x - r as real <= 0.5
    ensures (x - r as real == 0.5 || x - r as real == -0.5) ==> r % 2 == 0
  {
    var f := x.Floor;
    var d := x - f as real;
    if d < 0.5 then f else if d > 0.5 then f + 1 else if f % 2 == 0 then f else f + 1
  }

  function Abs(x: real): real {
    if x < 0.0 then -x else x
  }

  lemma RealMulMonotone(a: real, b: real, s: real)
    requires a <= b && 0.0 <= s
    ensures a * s <= b * s
  {
    assert (b - a) * s >= 0.0;
  }

  lemma RealMulStrict(a: real, b: real, s: real)
    requires a < b && 0.0 < s
    ensures a * s < b * s
  {
    assert (b - a) * s > 0.0;
  }

  lemma DivTimes(x: real, d: real)
    requires d != 0.0
    ensures x / d * d == x
  {
  }

  lemma CastMul(a: int, b: int)
    ensures (a * b) as real == a as real * b as real
  {
  }

  lemma DivAbove(x: real, d: real, c: real)
    requires 0.0 < d
    ensures x / d > c <==> x > c * d
  {
    var q := x / d;
    assert q * d == x;
    if q > c {
      RealMulStrict(c, q, d);
    } else {
      RealMulMonotone(q, c, d);
    }
  }

  /** No integer is nearer to x than `round(x)`. */
  lemma RoundIsNearest(x: real, k: int)
    ensures Abs(x - RoundHalfEven(x) as real) <= Abs(x - k as real)
  {
    var r := RoundHalfEven(x);
    if k < r {
      assert k as real <= r as real - 1.0;
    } else if k > r {
      assert k as real >= r as real + 1.0;
    }
  }

  /** Truncation keeps the order of its arguments. */
  lemma TruncMonotone(x: real, y: real)
    requires x <= y
    ensures Trunc(x) <= Trunc(y)
  {
    if x < 0.0 && 0.0 <= y {
    } else if 0.0 <= x {
      assert Trunc(x) as real <= x <= y < Trunc(y) as real + 1.0;
    } else {
      assert Trunc(x) as real - 1.0 < x <= y <= Trunc(y) as real;
    }
  }

  lemma TruncOfInt(k: int)
    ensures Trunc(k as real) == k
  {
    if k < 0 {
      assert Trunc(k as real) as real - 1.0 < k as real <= Trunc(k as real) as real;
    }
  }

  // ---------------------------------------------------------------------------------------
  // Screenshot.scale and bbox_scale

  /** The screenshot currently held: none, or an image of the given size. */
  datatype Shot = NoImage | Image(width: int, height: int)

  /** `Screenshot.scale`: the factors from the 1920x1080 reference resolution to the image. */
  function Scale(shot: Shot): (r: (real, real))
    ensures shot.NoImage? ==> r == (1.0, 1.0)
    ensures shot.Image? ==> r.0 * 1920.0 == shot.width as real && r.1 * 1080.0 == shot.height as real
  {
    match shot
    case NoImage => (1.0, 1.0)
    case Image(w, h) => (w as real / 1920.0, h as real / 1080.0)
  }

  /** One coordinate of `bbox_scale`: the product truncated toward zero. */
  function ScaleCoord(v: int, s: real): int {
    Trunc(v as real * s)
  }

  /** A scaled coordinate is its exact product with the fraction dropped. */
  lemma ScaleCoordTruncates(v: int, s: real)
    ensures 0.0 <= v as real * s ==>
      0 <= ScaleCoord(v, s) && ScaleCoord(v, s) as real <= v as real * s < ScaleCoord(v, s) as real + 1.0
    ensures v as real * s < 0.0 ==>
      ScaleCoord(v, s) <= 0 && ScaleCoord(v, s) as real - 1.0 < v as real * s <= ScaleCoord(v, s) as real
  {
  }

  /** With a non-negative factor, scaling keeps the order of coordinates. */
  lemma ScaleCoordMonotone(a: int, b: int, s: real)
    requires a <= b && 0.0 <= s
    ensures ScaleCoord(a, s) <= ScaleCoord(b, s)
  {
    assert a as real * s <= b as real * s by {
      RealMulMonotone(a as real, b as real, s);
    }
    TruncMonotone(a as real * s, b as real * s);
  }

  /** `bbox_scale`: left and right use the horizontal factor, top and bottom the vertical one,
      and every coordinate is truncated on its own. */
  function BboxScale(b: Bbox, scale: (real, real)): Bbox {
    Bbox(ScaleCoord(b.left, scale.0), ScaleCoord(b.top, scale.1),
         ScaleCoord(b.right, scale.0), ScaleCoord(b.bottom, scale.1))
  }

  /** Scale (1, 1) leaves an integer box unchanged. */
  lemma BboxScaleIdentity(b: Bbox)
    ensures BboxScale(b, (1.0, 1.0)) == b
  {
    TruncOfInt(b.left);
    TruncOfInt(b.top);
    TruncOfInt(b.right);
    TruncOfInt(b.bottom);
  }

  /** With non-negative factors a well-ordered box stays well-ordered. */
  lemma BboxScaleKeepsOrder(b: Bbox, scale: (real, real))
    requires 0.0 <= scale.0 && 0.0 <= scale.1
    requires b.left <= b.right && b.top <= b.bottom
    ensures BboxScale(b, scale).left <= BboxScale(b, scale).right
    ensures BboxScale(b, scale).top <= BboxScale(b, scale).bottom
  {
    ScaleCoordMonotone(b.left, b.right, scale.0);
    ScaleCoordMonotone(b.top, b.bottom, scale.1);
  }

  /** The whole reference screen scales onto the whole image. */
  lemma ReferenceScreenMapsToImage(w: int, h: int)
    ensures BboxScale(Bbox(0, 0, 1920, 1080), Scale(Image(w, h))) == Bbox(0, 0, w, h)
  {
    var s := Scale(Image(w, h));
    assert 1920.0 * s.0 == w as real;
    assert 1080.0 * s.1 == h as real;
    TruncOfInt(w);
    TruncOfInt(h);
    TruncOfInt(0);
  }

  // ---------------------------------------------------------------------------------------
  // Slot geometry

  /** The spin-box settings the geometry reads, in 1920x1080 pixels. */
  datatype Layout = Layout(
    deskLeft: int, deskTop: int, deskRight: int, deskBottom: int,
    ranks: int, cardWidth: int, cardHeight: int,
    offsetX: int, offsetY: int, ocrN: int)

  /** The values the GUI starts with. */
  const DefaultLayout := Layout(366, 460, 1556, 730, 9, 120, 180, 5, 4, 14)

  /** The number of card rows: the 36 cards spread over `ranks` columns. */
  function Rows(ranks: int): (r: int)
    requires ranks != 0
    ensures (r as real) - 1.0 < 36.0 / ranks as real <= r as real
  {
    Ceil(36.0 / ranks as real)
  }

  /** With a positive column count the rows hold all 36 cards and no row is wholly empty. */
  lemma RowsHoldTheDeck(ranks: int)
    requires 0 < ranks
    ensures ranks * Rows(ranks) >= 36 && ranks * (Rows(ranks) - 1) < 36
  {
    CeilTimes(36, ranks, Rows(ranks));
  }

  /** If r is the ceiling of c / k, then k * r reaches c and k * (r - 1) stays below it. */
  lemma CeilTimes(c: int, k: int, r: int)
    requires 0 < k && (r as real) - 1.0 < c as real / k as real <= r as real
    ensures k * r >= c && k * (r - 1) < c
  {
    var kr, cr := k as real, c as real;
    var below := r - 1;
    var q := cr / kr;
    DivTimes(cr, kr);
    RealMulMonotone(q, r as real, kr);
    RealMulStrict(below as real, q, kr);
    CastMul(r, k);
    CastMul(below, k);
  }

  /** Between 2 and 35 columns there are at least 2 rows. */
  lemma RowsAtLeastTwo(ranks: int)
    requires 2 <= ranks < 36
    ensures Rows(ranks) >= 2
  {
    RowsHoldTheDeck(ranks);
  }

  /** `card_marginx`: the horizontal gap that spreads the columns evenly so that the last card
      ends at the desk's right edge. */
  function CardMarginX(l: Layout): real
    requires l.ranks != 1
  {
    (l.deskRight - l.deskLeft - l.cardWidth) as real / (l.ranks - 1) as real - l.cardWidth as real
  }

  /** The `ranks - 1` steps of card width plus margin cover the desk width less one card. */
  lemma MarginXSpreadsColumns(l: Layout)
    requires l.ranks != 1
    ensures (l.ranks - 1) as real * (CardMarginX(l) + l.cardWidth as real) == (l.deskRight - l.deskLeft - l.cardWidth) as real
  {
  }

  /** `card_marginy`: the vertical step that spreads the rows evenly so that the last card ends
      at the desk's bottom edge. */
  function CardMarginY(l: Layout): real
    requires l.ranks != 0 && Rows(l.ranks) != 1
  {
    (l.deskBottom - l.deskTop - l.cardHeight) as real / (Rows(l.ranks) - 1) as real
  }

  /** The `rows - 1` steps cover the desk height less one card. */
  lemma MarginYSpreadsRows(l: Layout)
    requires l.ranks != 0 && Rows(l.ranks) != 1
    ensures (Rows(l.ranks) - 1) as real * CardMarginY(l) == (l.deskBottom - l.deskTop - l.cardHeight) as real
  {
  }

  /** The settings for which `card_bbox` divides by nothing that is zero. */
  predicate SlotsDefined(l: Layout) {
    l.ranks != 1 && l.ranks != 0 && Rows(l.ranks) != 1
  }

  /** The exact position of slot (x, y), before rounding. */
  function SlotLeft(l: Layout, x: int): real
    requires l.ranks != 1
  {
    x as real * (l.cardWidth as real + CardMarginX(l)) + l.deskLeft as real + l.offsetX as real
  }

  function SlotTop(l: Layout, y: int): real
    requires l.ranks != 0 && Rows(l.ranks) != 1
  {
    y as real * CardMarginY(l) + l.deskTop as real + l.offsetY as real
  }

  /** The first column starts at the desk's left edge and the last column's card ends at the
      right edge; likewise for the first and last rows (all shifted by the OCR offset). */
  lemma SlotsSpanTheDesk(l: Layout)
    requires SlotsDefined(l)
    ensures SlotLeft(l, 0) == (l.deskLeft + l.offsetX) as real
    ensures SlotLeft(l, l.ranks - 1) + l.cardWidth as real == (l.deskRight + l.offsetX) as real
    ensures SlotTop(l, 0) == (l.deskTop + l.offsetY) as real
    ensures SlotTop(l, Rows(l.ranks) - 1) + l.cardHeight as real == (l.deskBottom + l.offsetY) as real
  {
  }

  /** Consecutive columns are one card width plus one margin apart. */
  lemma SlotStep(l: Layout, x: int, y: int)
    requires SlotsDefined(l)
    ensures SlotLeft(l, x + 1) - SlotLeft(l, x) == l.cardWidth as real + CardMarginX(l)
    ensures SlotTop(l, y + 1) - SlotTop(l, y) == CardMarginY(l)
  {
  }

  /** `card_bbox`: the n x n box whose corner is slot (x, y)'s position rounded to the nearest
      pixel. */
  function CardBbox(l: Layout, x: int, y: int): (r: Bbox)
    requires SlotsDefined(l)
    ensures r.IsSquare(l.ocrN)
  {
    var left := RoundHalfEven(SlotLeft(l, x));
    var top := RoundHalfEven(SlotTop(l, y));
    Bbox(left, top, left + l.ocrN, top + l.ocrN)
  }

  /** The box's corner is the integer point nearest to the slot's exact position. */
  lemma CardBboxNearest(l: Layout, x: int, y: int, left: int, top: int)
    requires SlotsDefined(l)
    ensures -0.5 <= SlotLeft(l, x) - CardBbox(l, x, y).left as real <= 0.5
    ensures -0.5 <= SlotTop(l, y) - CardBbox(l, x, y).top as real <= 0.5
    ensures Abs(SlotLeft(l, x) - CardBbox(l, x, y).left as real) <= Abs(SlotLeft(l, x) - left as real)
    ensures Abs(SlotTop(l, y) - CardBbox(l, x, y).top as real) <= Abs(SlotTop(l, y) - top as real)
  {
    RoundIsNearest(SlotLeft(l, x), left);
    RoundIsNearest(SlotTop(l, y), top);
  }

  /** The worked example: a 900-pixel desk of nine 100-pixel cards leaves no margin. */
  lemma MarginExample(l: Layout)
    requires l.cardWidth == 100 && l.ranks == 9 && l.deskRight - l.deskLeft == 900
    ensures CardMarginX(l) == 0.0
  {
  }

  /** The default settings: 4 rows, steps of 133.75 and 30 pixels. */
  lemma DefaultGeometry()
    ensures Rows(DefaultLayout.ranks) == 4
    ensures CardMarginX(DefaultLayout) == 13.75
    ensures CardMarginY(DefaultLayout) == 30.0
  {
    assert 36.0 / 9.0 == 4.0;
  }

  // ---------------------------------------------------------------------------------------
  // to_old_card

  /** `to_old_card`: number names keep their digit ("10" becomes "0") and take the colour as
      suit; any other name is a face card whose suit is the name's first character. */
  function ToOldCard(isRed: bool, face: string): (c: Card)
    requires |face| > 0
    ensures |c.value| == 1 && |c.suit| == 1
    ensures c.IsNumber() <==> face in ["6", "7", "8", "9", "10"]
    ensures c.IsNumber() ==> (c.IsRed() <==> isRed)
    ensures c.IsFace() ==> c.suit == face[..1]
  {
    if face in ["6", "7", "8", "9"] then Card(face, if isRed then "R" else "B")
    else if face == "10" then Card("0", if isRed then "R" else "B")
    else Card("F", [face[0]])
  }

  /** The OCR name a card converted by `to_old_card` came from. */
  function OldCardName(c: Card): string {
    if c.value == "F" then c.suit else if c.value == "0" then "10" else c.value
  }

  /** On the recognised names: the five numbers give number cards coloured by the flag, the
      four suits give face cards of that suit whatever the flag, and the name is recovered. */
  lemma OldCardsOfNames(isRed: bool, face: string)
    requires face in Templates.Names
    ensures var c := ToOldCard(isRed, face);
      && |c.value| == 1 && |c.suit| == 1
      && OldCardName(c) == face
      && (face in ["6", "7", "8", "9", "10"] ==> c.IsNumber() && c.IsRed() == isRed)
      && (face in ["C", "D", "H", "S"] ==> c.IsFace() && c.suit == face && !c.IsRed())
  {
  }

  /** Different recognised names give different cards, and a number's colour is kept. */
  lemma OldCardsDistinct(red1: bool, face1: string, red2: bool, face2: string)
    requires face1 in Templates.Names && face2 in Templates.Names
    requires ToOldCard(red1, face1) == ToOldCard(red2, face2)
    ensures face1 == face2
    ensures face1 in ["6", "7", "8", "9", "10"] ==> red1 == red2
  {
    OldCardsOfNames(red1, face1);
    OldCardsOfNames(red2, face2);
  }

  // ---------------------------------------------------------------------------------------
  // detect_cards

  /** The red and blue channels of a slot's capture, resized to n x n. */
  datatype Sample = Sample(red: seq<int>, blue: seq<int>)

  function Sum(s: seq<int>): int {
    if |s| == 0 then 0 else Sum(s[..|s| - 1]) + s[|s| - 1]
  }

  /** The colour rule: red when the red channel's average is above 200. */
  predicate IsRedSample(red: seq<int>)
    requires |red| > 0
  {
    Sum(red) as real / |red| as real > 200.0
  }

  /** The rule in integers: the channel sum is above 200 per pixel. */
  lemma RedIffSumAbove(red: seq<int>)
    requires |red| > 0
    ensures IsRedSample(red) <==> Sum(red) > 200 * |red|
  {
    DivAbove(Sum(red) as real, |red| as real, 200.0);
    CastMul(200, |red|);
  }

  lemma {:induction false} SumConstant(s: seq<int>, v: int)
    requires forall i :: 0 <= i < |s| ==> s[i] == v
    ensures Sum(s) == v * |s|
  {
    if |s| > 0 {
      SumConstant(s[..|s| - 1], v);
    }
  }

  /** A uniform red channel is red exactly when its value is above 200: an average of exactly
      200 counts as black. */
  lemma UniformRed(red: seq<int>, v: int)
    requires |red| > 0
    requires forall i :: 0 <= i < |red| ==> red[i] == v
    ensures IsRedSample(red) <==> v > 200
  {
    SumConstant(red, v);
    RedIffSumAbove(red);
    if v > 200 {
      MulMonotone(201, v, |red|);
    } else {
      MulMonotone(v, 200, |red|);
    }
  }

  /** The score of every built-in template against a slot's blue channel. */
  function SlotScores(blue: seq<int>, n: nat): (r: seq<nat>)
    requires 12 <= n && |blue| == n * n
    ensures |r| == |Templates.Names|
  {
    Templates.TemplatesWellFormed();
    TemplateScores(Quantize(blue, n, n), Templates.Cards)
  }

  /** What one slot reads as: its colour, and the name of the first template that scores
      lowest against its blue channel. */
  function SlotReading(s: Sample, n: nat): (r: (bool, string))
    requires 12 <= n && |s.red| == n * n && |s.blue| == n * n
    ensures r.1 in Templates.Names
  {
    (IsRedSample(s.red), Templates.Names[ArgMin(SlotScores(s.blue, n))])
  }

  /** The body of `detect_cards`'s inner loop: colour from the red channel, name from
      `compare` on the blue channel. */
  method ReadSlot(img: Sample, n: nat) returns (reading: (bool, string))
    requires 12 <= n && |img.red| == n * n && |img.blue| == n * n
    ensures reading == SlotReading(img, n)
  {
    var isRed := IsRedSample(img.red);
    Templates.TemplatesWellFormed();
    var cmp := Compare(img.blue, n, Templates.Cards);
    assert cmp.Compared?;
    assert cmp.diffs == SlotScores(img.blue, n);
    reading := (isRed, Templates.Names[cmp.argmin]);
  }

  /** `capture(box)` is the screenshot's crop to `box` resized to n x n, as `(red, blue)`. */
  ghost predicate CaptureFits(capture: Bbox -> Sample, n: nat) {
    forall b :: |capture(b).red| == n * n && |capture(b).blue| == n * n
  }

  /** The settings `detect_cards` runs with to the end: no columns at all, or a grid it can lay
      out with an OCR size at least the templates' 12 rows.  The row count is spelled out
      though `RowsAtLeastTwo` derives it from the column range. */
  ghost predicate DetectionDefined(l: Layout, capture: Bbox -> Sample) {
    l.ranks < 0 ||
    (&& 2 <= l.ranks < 36 && 2 <= Rows(l.ranks)
     && 12 <= l.ocrN
     && CaptureFits(capture, l.ocrN))
  }

  function Columns(l: Layout): nat {
    if l.ranks < 0 then 0 else l.ranks
  }

  /** The slot (x, y) in image pixels. */
  function SlotBox(l: Layout, shot: Shot, x: int, y: int): Bbox
    requires SlotsDefined(l)
  {
    BboxScale(CardBbox(l, x, y), Scale(shot))
  }

  /** The readings of column x, top row first. */
  function StackReadings(l: Layout, shot: Shot, capture: Bbox -> Sample, x: nat): (r: seq<(bool, string)>)
    requires DetectionDefined(l, capture) && x < Columns(l)
    ensures |r| == Rows(l.ranks)
  {
    seq(Rows(l.ranks), y requires 0 <= y < Rows(l.ranks) =>
      SlotReading(capture(SlotBox(l, shot, x, y)), l.ocrN))
  }

  /** The whole grid, column by column. */
  function Readings(l: Layout, shot: Shot, capture: Bbox -> Sample): (r: seq<seq<(bool, string)>>)
    requires DetectionDefined(l, capture)
    ensures |r| == Columns(l)
  {
    seq(Columns(l), x requires 0 <= x < Columns(l) => StackReadings(l, shot, capture, x))
  }

  /** The grid has one stack per column, each as long as the row count, and the slots cover
      the 36 cards. */
  lemma ReadingsShape(l: Layout, shot: Shot, capture: Bbox -> Sample)
    requires DetectionDefined(l, capture) && 0 < l.ranks
    ensures |Readings(l, shot, capture)| == l.ranks
    ensures forall x :: 0 <= x < l.ranks ==> |Readings(l, shot, capture)[x]| == Rows(l.ranks)
    ensures l.ranks * Rows(l.ranks) >= 36
  {
    RowsHoldTheDeck(l.ranks);
  }

  /** Slot (x, y) is red exactly when its red channel sums to more than 200 per pixel. */
  lemma SlotColour(l: Layout, shot: Shot, capture: Bbox -> Sample, x: nat, y: nat)
    requires DetectionDefined(l, capture) && x < Columns(l) && y < Rows(l.ranks)
    ensures Readings(l, shot, capture)[x][y].0 <==>
      Sum(capture(SlotBox(l, shot, x, y)).red) > 200 * (l.ocrN * l.ocrN)
  {
    RedIffSumAbove(capture(SlotBox(l, shot, x, y)).red);
  }

  /** Slot (x, y) is named after the first template that scores lowest against its blue
      channel. */
  lemma SlotName(l: Layout, shot: Shot, capture: Bbox -> Sample, x: nat, y: nat, a: nat)
    requires DetectionDefined(l, capture) && x < Columns(l) && y < Rows(l.ranks)
    requires FirstMinimum(SlotScores(capture(SlotBox(l, shot, x, y)).blue, l.ocrN), a)
    ensures Readings(l, shot, capture)[x][y].1 == Templates.Names[a]
  {
    var img := capture(SlotBox(l, shot, x, y));
    ArgMinIsTheFirstMinimum(SlotScores(img.blue, l.ocrN), a);
    assert StackReadings(l, shot, capture, x)[y] == SlotReading(img, l.ocrN);
    assert Readings(l, shot, capture)[x] == StackReadings(l, shot, capture, x);
  }

  /** The GUI's state that `detect_cards` reads and writes. */
  class Gui {
    var layout: Layout
    var ocrResult: seq<seq<(bool, string)>>

    constructor()
      ensures layout == DefaultLayout && ocrResult == []
    {
      layout := DefaultLayout;
      ocrResult := [];
    }

    /** `detect_cards`: reads every slot, column by column, and stores the grid; with no
        screenshot it returns an empty grid and stores nothing. */
    method DetectCards(shot: Shot, capture: Bbox -> Sample) returns (result: seq<seq<(bool, string)>>)
      requires shot.Image? ==> DetectionDefined(layout, capture)
      modifies this`ocrResult
      ensures shot.NoImage? ==> result == [] && ocrResult == old(ocrResult)
      ensures shot.Image? ==> result == Readings(layout, shot, capture) && ocrResult == result
    {
      if shot.NoImage? {
        return [];
      }
      var ranks := layout.ranks;
      result := [];
      var x := 0;
      while x < ranks
        invariant 0 <= x <= Columns(layout)
        invariant result == Readings(layout, shot, capture)[..x]
      {
        var stack := ReadColumn(layout, shot, capture, x);
        result := result + [stack];
        x := x + 1;
      }
      assert result == Readings(layout, shot, capture);
      ocrResult := result;
    }
  }

  /** The inner loop of `detect_cards`: the slots of column x, top row first. */
  method ReadColumn(l: Layout, shot: Shot, capture: Bbox -> Sample, x: nat) returns (stack: seq<(bool, string)>)
    requires DetectionDefined(l, capture) && x < Columns(l)
    ensures stack == StackReadings(l, shot, capture, x)
  {
    RowsAtLeastTwo(l.ranks);
    var dn := Rows(l.ranks);
    ghost var expected := StackReadings(l, shot, capture, x);
    stack := [];
    var y := 0;
    while y < dn
      invariant 0 <= y <= dn
      invariant stack == expected[..y]
    {
      var reading := ReadSlotAt(l, shot, capture, x, y);
      PrefixStep(expected, y);
      stack := stack + [reading];
      y := y + 1;
    }
    assert expected[..dn] == expected;
  }

  /** One pass of the inner loop: crop and resize slot (x, y), then read it. */
  method ReadSlotAt(l: Layout, shot: Shot, capture: Bbox -> Sample, x: nat, y: nat) returns (reading: (bool, string))
    requires DetectionDefined(l, capture) && x < Columns(l) && y < Rows(l.ranks)
    ensures reading == StackReadings(l, shot, capture, x)[y]
  {
    var img := capture(SlotBox(l, shot, x, y));
    reading := ReadSlot(img, l.ocrN);
  }

  /** Extending a prefix by one element. */
  lemma PrefixStep<T>(s: seq<T>, k: nat)
    requires k < |s|
    ensures s[..k + 1] == s[..k] + [s[k]]
  {
  }
}
