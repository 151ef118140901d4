/**
 The arithmetic of the episode timeline's rail (frontend/src/utils/episodeTimeline.ts): days are integers, pixels are reals.
 */
module TimelineRail {
  const WINDOW_DAYS := 14
  const DAY_WIDTH := 224
  const RAIL_DAYS := 70

  function Ceil(x: real): int { -(-x).Floor }

  /** The day column at a pixel offset. */
  function DayAt(left: real): int { (left / (DAY_WIDTH as real)).Floor }

  /** Windows are the multiples of 14, and every day is in exactly one. */
  function TimelineWindow(day: int): (w: int)
    ensures w % 14 == 0 && w <= day < w + 14
    ensures forall v :: v % 14 == 0 && v <= day < v + 14 ==> v == w
  {
    day / WINDOW_DAYS * WINDOW_DAYS
  }

  datatype Span = Span(first: int, end: int)

  function Min(a: int, b: int): int { if a <= b then a else b }
  function Max(a: int, b: int): int { if a >= b then a else b }

  function TimelineViewport(start: int, left: real, width: real): Span {
    var first := Max(0, DayAt(left) - 2);
    var end := Min(RAIL_DAYS, Ceil((left + width) / (DAY_WIDTH as real)) + 2);
    Span(start + first, start + end)
  }

  /** A day column of the rail shows when some pixel of it is inside the viewport. */
  predicate Shows(left: real, width: real, column: int) {
    (column as real) * 224.0 < left + width && left < ((column + 1) as real) * 224.0
  }

  /** Every visible column of the rail is in the viewport, with two more on each side where the rail has them. */
  lemma ViewportCoversTheScreen(start: int, left: real, width: real, column: int, margin: int)
    requires Shows(left, width, column) && -2 <= margin <= 2 && 0 <= column + margin < 70
    ensures var v := TimelineViewport(start, left, width); v.first <= start + column + margin < v.end
    ensures var v := TimelineViewport(start, left, width); start <= v.first && v.end <= start + 70
  {
    var q, p := left / (DAY_WIDTH as real), (left + width) / (DAY_WIDTH as real);
    assert q * (DAY_WIDTH as real) == left && p * (DAY_WIDTH as real) == left + width;
    assert q < (column + 1) as real && (column as real) < p;
    assert DayAt(left) <= column;
  }

  /** Nor is there more: whatever is in the viewport is at most two columns from one that shows. */
  lemma ViewportIsTight(start: int, left: real, width: real, column: int)
    requires width > 0.0
    requires var v := TimelineViewport(start, left, width); v.first <= start + column < v.end
    ensures exists shown :: column - 2 <= shown <= column + 2 && Shows(left, width, shown)
  {
    var q, p := left / (DAY_WIDTH as real), (left + width) / (DAY_WIDTH as real);
    assert q * 224.0 == left && p * 224.0 == left + width;
    var first, last := DayAt(left), Ceil(p) - 1;
    assert Shows(left, width, if column < first then first else if column > last then last else column);
  }

  datatype Rail = Rail(start: int, left: real)

  function Recenter(rail: Rail, width: real): Rail {
    var index := DayAt(rail.left);
    var visible := Ceil(width / (DAY_WIDTH as real));
    if index >= WINDOW_DAYS && index + visible <= RAIL_DAYS - WINDOW_DAYS then rail
    else
      var shift := (index - WINDOW_DAYS * 2) / WINDOW_DAYS * WINDOW_DAYS;
      Rail(rail.start + shift, rail.left - (shift * DAY_WIDTH) as real)
  }

  /** The pixel position of the left edge on the endless calendar. */
  function Position(rail: Rail): real { (rail.start * 224) as real + rail.left }

  /** Recentering keeps the calendar where it is, moves by whole windows, and puts the left edge into the middle window. */
  lemma RecenterKeepsTheCalendar(rail: Rail, width: real)
    ensures var r := Recenter(rail, width);
            Position(r) == Position(rail) && (r.start - rail.start) % 14 == 0 &&
            (r == rail || 28 <= DayAt(r.left) <= 41) &&
            (14 <= DayAt(rail.left) && DayAt(rail.left) + Ceil(width / 224.0) <= 56 ==> r == rail) &&
            (r.start - rail.start) + DayAt(r.left) == DayAt(rail.left)
  {
    var r := Recenter(rail, width);
    var index := DayAt(rail.left);
    var shift := (index - WINDOW_DAYS * 2) / WINDOW_DAYS * WINDOW_DAYS;
    if r != rail {
      assert ((rail.start + shift) * DAY_WIDTH) as real == (rail.start * DAY_WIDTH) as real + (shift * DAY_WIDTH) as real;
    }
  }

  /** Recentering a second time, whatever the width, changes nothing. */
  lemma RecenterTwice(rail: Rail, width: real)
    ensures Recenter(Recenter(rail, width), width) == Recenter(rail, width)
  {
    RecenterKeepsTheCalendar(rail, width);
    var r := Recenter(rail, width);
    if r != rail {
      var index := DayAt(r.left);
      assert (index - 28) / WINDOW_DAYS == 0;
      assert r.left - (0 * DAY_WIDTH) as real == r.left;
    }
  }

  /** Afterwards there is a window's margin on both sides, unless the screen is wider than the rail can hold. */
  lemma RecenterLeavesMargins(rail: Rail, width: real)
    requires Ceil(width / 224.0) <= 15
    ensures var r := Recenter(rail, width);
            14 <= DayAt(r.left) && DayAt(r.left) + Ceil(width / 224.0) <= 56
  {
    RecenterKeepsTheCalendar(rail, width);
  }
}
