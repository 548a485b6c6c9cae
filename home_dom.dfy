/** Where a winner's card goes on screen when the round is revealed
    (`getElementPosition` in src/pages/home/home-dom.ts). */
module HomeDom {

  datatype Size = Size(width: real, height: real)

  datatype ScreenPosition = ScreenPosition(xTable: real, yTable: real)

  /** Round sizes whose first row is shifted half a slot to stay centred. */
  const SPECIAL_POSITION: seq<int> := [2, 4, 7, 9]

  /** Cards per reveal row. */
  const ROW_WIDTH := 5

  /** `Math.ceil(index / 2)` for a non-negative integer. */
  function CeilHalf(index: nat): nat
  {
    (index + 1) / 2
  }

  /** The first row stays centred by a half-slot shift exactly for these calls. */
  predicate Shifted(totalCount: int, cardIndex: nat)
  {
    totalCount in SPECIAL_POSITION && !(totalCount > 5 && cardIndex < 5)
  }

  /** The unshifted horizontal offset of slot `cardIndex % 5`: the centre, then alternately one
      step left and one step right, then two steps left and two steps right. */
  function SlotX(cardSize: Size, cardIndex: nat): real
  {
    var step := cardSize.width + 100.0;
    match cardIndex % ROW_WIDTH
    case 0 => 0.0
    case 1 => -step
    case 2 => step
    case 3 => -2.0 * step
    case _ => 2.0 * step
  }

  /** `getElementPosition(_element, _count, totalCount, cardSize, windowSize, cardIndex)`: the
      element and the count are not read. Rows of five are stacked downwards from the centre of
      the window, so the vertical offset is the same in every branch; within a row the slots
      alternate left and right of the centre, moved half a step right when shifted. */
  function GetElementPosition<E>(element: E, count: int, totalCount: int, cardSize: Size,
                                  windowSize: Size, cardIndex: nat): (p: ScreenPosition)
    ensures p.yTable == windowSize.height / 2.0 - cardSize.height / 2.0
                        - ((cardIndex / 5) as real) * (cardSize.height + 60.0)
    ensures p.xTable == SlotX(cardSize, cardIndex)
                        + (if Shifted(totalCount, cardIndex) then (cardSize.width + 100.0) / 2.0 else 0.0)
  {
    var centerX := 0.0;
    var centerY := windowSize.height / 2.0 - cardSize.height / 2.0;
    var row := (cardIndex / ROW_WIDTH) as real;
    var step := cardSize.width + 100.0;
    var index := cardIndex % ROW_WIDTH;
    assert CeilHalf(1) == 1 && CeilHalf(2) == 1 && CeilHalf(3) == 2 && CeilHalf(4) == 2;
    assert index == 0 || index == 1 || index == 2 || index == 3 || index == 4;
    if totalCount !in SPECIAL_POSITION || (totalCount > 5 && cardIndex < 5) then
      if index == 0 then
        ScreenPosition(centerX, centerY - row * (cardSize.height + 60.0))
      else
        ScreenPosition(
          if index % 2 == 0 then (CeilHalf(index) as real) * step else -(CeilHalf(index) as real) * step,
          centerY - row * (cardSize.height + 60.0))
    else
      if index == 0 then
        ScreenPosition(centerX + step / 2.0, centerY - row * (cardSize.height + 60.0))
      else
        ScreenPosition(
          if index % 2 == 0 then (CeilHalf(index) as real) * step + step / 2.0
          else -((CeilHalf(index) as real) * step) + step / 2.0,
          centerY - row * (cardSize.height + 60.0))
  }

  /** Slot 1 mirrors slot 2 and slot 3 mirrors slot 4 around the centre. */
  lemma SlotsMirror(cardSize: Size, row: nat)
    ensures SlotX(cardSize, 5 * row + 1) == -SlotX(cardSize, 5 * row + 2)
    ensures SlotX(cardSize, 5 * row + 3) == -SlotX(cardSize, 5 * row + 4)
    ensures SlotX(cardSize, 5 * row) == 0.0
  {
    assert (5 * row + 1) % 5 == 1 && (5 * row + 2) % 5 == 2;
    assert (5 * row + 3) % 5 == 3 && (5 * row + 4) % 5 == 4 && (5 * row) % 5 == 0;
  }

  /** The placement depends only on the round size, the card size, the window and the index. */
  lemma ElementPositionIgnoresElement<E>(e1: E, e2: E, c1: int, c2: int, totalCount: int,
                                         cardSize: Size, windowSize: Size, cardIndex: nat)
    ensures GetElementPosition(e1, c1, totalCount, cardSize, windowSize, cardIndex)
         == GetElementPosition(e2, c2, totalCount, cardSize, windowSize, cardIndex)
  {
  }

  /** With a non-negative card width, the cards of one reveal row never share a horizontal
      position. */
  lemma {:induction false} RowPositionsDistinct<E>(element: E, count: int, totalCount: int,
                                                   cardSize: Size, windowSize: Size, i: nat, j: nat)
    requires cardSize.width >= 0.0
    requires i != j && i / 5 == j / 5
    ensures GetElementPosition(element, count, totalCount, cardSize, windowSize, i).xTable
         != GetElementPosition(element, count, totalCount, cardSize, windowSize, j).xTable
  {
    assert i == 5 * (i / 5) + i % 5 && j == 5 * (j / 5) + j % 5;
    assert i % 5 != j % 5;
    assert (i < 5) == (j < 5);
  }
}
