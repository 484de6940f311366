/** The legacy fixed-layout board (Board.py): a 9 x 4 grid of small sample squares, the exact
    matcher over reference images, and the mouse targets for moving stacks. */
module BoardLayout {
  import opened Basics
  import opened Cards

  /** An RGB pixel, as `getdata` lists it. */
  type Pixel = (int, int, int)

  /** What the mouse targets read from the game: for one rank, how many cards it holds and how
      long its top movable stack is. */
  datatype RankState = RankState(totalCards: int, topStackLength: int)

  /** A mouse target; the y coordinate is absent when there is no game. */
  datatype Position = Position(x: real, y: Option<real>)

  /** One entry of the reference-image directory: the file name and its pixels. */
  type Reference = (string, seq<Pixel>)

  // ---------------------------------------------------------------------------------------
  // get_card

  /** The index of the first reference, in listing order, whose pixels equal the capture. */
  function FirstMatch(refs: seq<Reference>, capture: seq<Pixel>): (r: Option<nat>)
    ensures r.Some? ==> r.value < |refs| && refs[r.value].1 == capture
    ensures r.Some? ==> forall i :: 0 <= i < r.value ==> refs[i].1 != capture
  {
    if |refs| == 0 then None
    else if refs[0].1 == capture then Some(0)
    else match FirstMatch(refs[1..], capture)
      case None => None
      case Some(i) => Some(i + 1)
  }

  /** No reference is missed: the search finds nothing only when nothing matches. */
  lemma {:induction false} FirstMatchComplete(refs: seq<Reference>, capture: seq<Pixel>)
    ensures FirstMatch(refs, capture).None? <==> forall i :: 0 <= i < |refs| ==> refs[i].1 != capture
  {
    if |refs| > 0 && refs[0].1 != capture {
      FirstMatchComplete(refs[1..], capture);
      assert forall i :: 1 <= i < |refs| ==> refs[i] == refs[1..][i - 1];
    }
  }

  /** The name of the first matching reference, the only one `get_card` reads, can be split
      into value and suit. */
  predicate NamesReadable(refs: seq<Reference>, capture: seq<Pixel>) {
    FirstMatch(refs, capture).Some? ==> |refs[FirstMatch(refs, capture).value].0| >= 2
  }

  /** The card `get_card` returns: value and suit from the first two characters of the first
      matching name, or the unknown card. */
  function MatchedCard(refs: seq<Reference>, capture: seq<Pixel>): Card
    requires NamesReadable(refs, capture)
  {
    match FirstMatch(refs, capture)
    case None => Unknown
    case Some(i) => Card([refs[i].0[0]], [refs[i].0[1]])
  }

  /** With no equal reference the result is the unknown card; with one, the result is the
      unknown card exactly when the first matching name starts with "??". */
  lemma MatchedCardSentinel(refs: seq<Reference>, capture: seq<Pixel>)
    requires NamesReadable(refs, capture)
    ensures (forall i :: 0 <= i < |refs| ==> refs[i].1 != capture) ==> MatchedCard(refs, capture) == Unknown
    ensures FirstMatch(refs, capture).Some? ==>
            (MatchedCard(refs, capture) == Unknown <==> refs[FirstMatch(refs, capture).value].0[..2] == "??")
  {
    FirstMatchComplete(refs, capture);
  }

  /** The matched card carries the first two characters of the matched name, so its id is that
      two-character prefix. */
  lemma MatchedCardId(refs: seq<Reference>, capture: seq<Pixel>, i: nat)
    requires NamesReadable(refs, capture)
    requires FirstMatch(refs, capture) == Some(i)
    ensures MatchedCard(refs, capture).Id() == refs[i].0[..2]
  {
  }

  // ---------------------------------------------------------------------------------------
  // The sample grid

  const SquareSize := 15
  const VerticalSpacingWithSquare := 15
  const HorizontalSpacingWithSquare := 119
  const VerticalSpacing := VerticalSpacingWithSquare + SquareSize
  const HorizontalSpacing := HorizontalSpacingWithSquare + SquareSize
  const LeftOffset := 369
  const TopOffset := 465
  const CardWidth := 112
  const CardHeight := 15
  const HandX := 1430
  const HandY := 245
  const NewgameX := 1400
  const NewgameY := 900

  /** The sample square of column c, row r. */
  function GridBox(c: int, r: int): (b: Bbox) {
    Bbox(LeftOffset + HorizontalSpacing * c, TopOffset + VerticalSpacing * r,
         LeftOffset + HorizontalSpacing * c + SquareSize, TopOffset + VerticalSpacing * r + SquareSize)
  }

  /** `bounding_box_list`: one list per column, each holding that column's rows. */
  function GridBoxes(cols: nat, rows: nat): (g: seq<seq<Bbox>>)
    ensures |g| == cols && forall c :: 0 <= c < cols ==> |g[c]| == rows
  {
    seq(cols, c requires 0 <= c < cols => seq(rows, r requires 0 <= r < rows => GridBox(c, r)))
  }

  /** Every sample square is 15 pixels on a side. */
  lemma GridBoxesAreSquares(cols: nat, rows: nat)
    ensures forall c, r :: 0 <= c < cols && 0 <= r < rows ==> GridBoxes(cols, rows)[c][r].IsSquare(SquareSize)
  {
  }

  /** Squares further right or further down start strictly further right or down. */
  lemma GridBoxesIncrease(c1: int, r1: int, c2: int, r2: int)
    ensures c1 < c2 ==> GridBox(c1, r1).left < GridBox(c2, r2).left
    ensures r1 < r2 ==> GridBox(c1, r1).top < GridBox(c2, r2).top
  {
  }

  /** Two different squares never overlap: one lies wholly left of, or wholly above, the other. */
  lemma GridBoxesDisjoint(c1: int, r1: int, c2: int, r2: int)
    requires (c1, r1) != (c2, r2)
    ensures var a, b := GridBox(c1, r1), GridBox(c2, r2);
      a.right <= b.left || b.right <= a.left || a.bottom <= b.top || b.bottom <= a.top
  {
    if c1 < c2 {
      assert GridBox(c1, r1).right <= GridBox(c2, r2).left;
    } else if c2 < c1 {
      assert GridBox(c2, r2).right <= GridBox(c1, r1).left;
    } else if r1 < r2 {
      assert GridBox(c1, r1).bottom <= GridBox(c2, r2).top;
    } else {
      assert GridBox(c2, r2).bottom <= GridBox(c1, r1).top;
    }
  }

  lemma MulStrict(a: int, b: int, k: int)
    requires a < b && 0 < k
    ensures a * k < b * k
  {
    assert (b - a) * k > 0;
    assert (b - a) * k == b * k - a * k;
  }

  class Board {
    var startingRows: int
    var startingCols: int
    var game: Option<seq<RankState>>
    var boundingBoxList: seq<seq<Bbox>>
    var leftOffset: int
    var topOffset: int
    var cardWidth: int
    var horizontalSpacing: int
    var verticalSpacing: int
    var handX: int
    var handY: int

    /** `__init__`: no game yet, and the 9 x 4 grid of sample squares built column by column. */
    constructor()
      ensures startingRows == 4 && startingCols == 9 && game == None
      ensures boundingBoxList == GridBoxes(9, 4)
      ensures leftOffset == LeftOffset && topOffset == TopOffset && cardWidth == CardWidth
      ensures horizontalSpacing == HorizontalSpacing && verticalSpacing == VerticalSpacing
      ensures handX == HandX && handY == HandY
    {
      startingRows := 4;
      startingCols := 9;
      game := None;
      leftOffset, topOffset, cardWidth := LeftOffset, TopOffset, CardWidth;
      horizontalSpacing, verticalSpacing := HorizontalSpacing, VerticalSpacing;
      handX, handY := HandX, HandY;
      new;
      var boxes: seq<seq<Bbox>> := [];
      var c := 0;
      while c < 9
        invariant 0 <= c <= 9
        invariant boxes == GridBoxes(9, 4)[..c]
      {
        boxes := boxes + [[]];
        var r := 0;
        while r < 4
          invariant 0 <= r <= 4
          invariant |boxes| == c + 1
          invariant boxes[..c] == GridBoxes(9, 4)[..c]
          invariant boxes[c] == GridBoxes(9, 4)[c][..r]
        {
          var box := Bbox(leftOffset + horizontalSpacing * c, topOffset + verticalSpacing * r,
                          leftOffset + horizontalSpacing * c + SquareSize,
                          topOffset + verticalSpacing * r + SquareSize);
          boxes := boxes[c := boxes[c] + [box]];
          r := r + 1;
        }
        assert boxes[c] == GridBoxes(9, 4)[c];
        assert boxes == GridBoxes(9, 4)[..c + 1];
        c := c + 1;
      }
      boundingBoxList := boxes;
    }

    /** The settings for which each rank the targets name exists in the game. */
    predicate RankKnown(rankIdx: int)
      reads this
    {
      game.Some? ==> 0 <= rankIdx < |game.value|
    }

    /** `get_rank_x`: the horizontal centre of rank `rankIdx`'s cards. */
    function RankX(rankIdx: int): real
      reads this
    {
      (leftOffset + rankIdx * horizontalSpacing) as real + cardWidth as real / 2.0
    }

    /** Rank targets lie left to right in rank order, one spacing apart. */
    lemma RankXIncreasing(i: int, j: int)
      requires 0 < horizontalSpacing && i < j
      ensures RankX(i) < RankX(j)
      ensures RankX(j) - RankX(i) == ((j - i) * horizontalSpacing) as real
    {
      MulStrict(i, j, horizontalSpacing);
      assert (j - i) * horizontalSpacing == j * horizontalSpacing - i * horizontalSpacing;
    }

    /** `get_stack_front_y`: three quarters into the rank's last card. */
    function StackFrontY(rankIdx: int): (y: Option<real>)
      requires RankKnown(rankIdx)
      reads this
      ensures y.None? <==> game.None?
    {
      match game
      case None => None
      case Some(ranks) =>
        Some(topOffset as real + ((ranks[rankIdx].totalCards - 1) as real + 0.75) * verticalSpacing as real)
    }

    /** `get_stack_back_y`: three quarters into the first card of the rank's top stack. */
    function StackBackY(rankIdx: int): (y: Option<real>)
      requires RankKnown(rankIdx)
      reads this
      ensures y.None? <==> game.None?
    {
      match game
      case None => None
      case Some(ranks) =>
        var rank := ranks[rankIdx];
        Some(topOffset as real + ((rank.totalCards - rank.topStackLength) as real + 0.75) * verticalSpacing as real)
    }

    /** The back of a non-empty top stack is never below its front; they are `len - 1` card
        spacings apart. */
    lemma BackNotBelowFront(rankIdx: int)
      requires RankKnown(rankIdx) && game.Some?
      requires 1 <= game.value[rankIdx].topStackLength && 0 <= verticalSpacing
      ensures StackBackY(rankIdx).value <= StackFrontY(rankIdx).value
      ensures StackFrontY(rankIdx).value - StackBackY(rankIdx).value ==
        ((game.value[rankIdx].topStackLength - 1) * verticalSpacing) as real
    {
      var rank := game.value[rankIdx];
      var vs := verticalSpacing;
      var back := (rank.totalCards - rank.topStackLength) as real + 0.75;
      var front := (rank.totalCards - 1) as real + 0.75;
      assert front - back == (rank.topStackLength - 1) as real;
      assert front * vs as real - back * vs as real == (front - back) * vs as real;
      assert ((rank.topStackLength - 1) * vs) as real == (rank.topStackLength - 1) as real * vs as real;
      MulMonotone(0, rank.topStackLength - 1, vs);
    }

    /** `get_back_stack_position`: the hand for rank -1, else the back of the rank's top stack. */
    function BackStackPosition(rankIdx: int): Position
      requires rankIdx != -1 ==> RankKnown(rankIdx)
      reads this
    {
      if rankIdx == -1 then Position(handX as real, Some(handY as real))
      else Position(RankX(rankIdx), StackBackY(rankIdx))
    }

    /** `get_front_stack_position`: the hand for rank -1, else the front of the rank. */
    function FrontStackPosition(rankIdx: int): Position
      requires rankIdx != -1 ==> RankKnown(rankIdx)
      reads this
    {
      if rankIdx == -1 then Position(handX as real, Some(handY as real))
      else Position(RankX(rankIdx), StackFrontY(rankIdx))
    }

    /** The board as `__init__` leaves its mouse-target fields. */
    predicate HasDefaultTargets()
      reads this
    {
      leftOffset == LeftOffset && horizontalSpacing == HorizontalSpacing &&
      cardWidth == CardWidth && handX == HandX && handY == HandY
    }

    /** With the built-in offsets no rank's column lines up with the hand, so a target is the
        hand exactly when the rank index is -1. */
    lemma HandExactlyForMinusOne(rankIdx: int)
      requires HasDefaultTargets()
      requires rankIdx != -1 ==> RankKnown(rankIdx)
      ensures BackStackPosition(rankIdx) == Position(HandX as real, Some(HandY as real)) <==> rankIdx == -1
      ensures FrontStackPosition(rankIdx) == Position(HandX as real, Some(HandY as real)) <==> rankIdx == -1
    {
      if rankIdx != -1 {
        assert RankX(rankIdx) == (425 + rankIdx * 134) as real;
        assert 425 + rankIdx * 134 != HandX;
      }
    }

    /** The two targets of one rank share its column, and with a non-empty top stack the one
        that picks the stack up is not below the one that drops onto the rank. */
    lemma TargetsOfOneRank(rankIdx: int)
      requires rankIdx != -1 && RankKnown(rankIdx) && game.Some?
      requires 1 <= game.value[rankIdx].topStackLength && 0 <= verticalSpacing
      ensures BackStackPosition(rankIdx).x == FrontStackPosition(rankIdx).x
      ensures BackStackPosition(rankIdx).y.Some? && FrontStackPosition(rankIdx).y.Some?
      ensures BackStackPosition(rankIdx).y.value <= FrontStackPosition(rankIdx).y.value
    {
      BackNotBelowFront(rankIdx);
    }
  }

  /** `get_card`: the first reference whose pixels equal the capture's names the card; the
      unknown card when none does. */
  method GetCard(refs: seq<Reference>, capture: seq<Pixel>) returns (card: Card)
    requires NamesReadable(refs, capture)
    ensures card == MatchedCard(refs, capture)
  {
    var k := 0;
    while k < |refs|
      invariant 0 <= k <= |refs|
      invariant forall i :: 0 <= i < k ==> refs[i].1 != capture
    {
      var (name, pixels) := refs[k];
      if pixels == capture {
        FirstMatchAt(refs, capture, k);
        return Card([name[0]], [name[1]]);
      }
      k := k + 1;
    }
    FirstMatchComplete(refs, capture);
    return Unknown;
  }

  /** The search stops at the first equal reference. */
  lemma FirstMatchAt(refs: seq<Reference>, capture: seq<Pixel>, k: nat)
    requires k < |refs| && refs[k].1 == capture
    requires forall i :: 0 <= i < k ==> refs[i].1 != capture
    ensures FirstMatch(refs, capture) == Some(k)
  {
    FirstMatchComplete(refs, capture);
    var m := FirstMatch(refs, capture);
    assert m.Some?;
  }
}
