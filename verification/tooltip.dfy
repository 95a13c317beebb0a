/**
 * The hover tooltip (src/components/Tooltip.tsx): where it is placed next to
 * the cursor, and the rows it shows. The window size is a parameter.
 */
module Tooltip {
  import opened Wrappers
  import opened Types
  import opened Config

  /** A position in window pixels. */
  datatype Position = Position(x: real, y: real)

  const OffsetX: real := 15.0
  const OffsetY: real := 15.0
  const TooltipWidth: real := 200.0
  const TooltipHeight: real := 150.0

  /** One coordinate: after the cursor plus the offset, or flipped before it when the box would overflow. */
  function Place(cursor: real, offset: real, size: real, limit: real): real {
    if cursor + offset + size > limit then cursor - size - offset else cursor + offset
  }

  /**
   * adjustedPosition. On each axis the box goes 15 pixels after the cursor
   * when it fits before the window edge; otherwise it is flipped to end 15
   * pixels before the cursor. Either way the box never covers the cursor.
   */
  function AdjustedPosition(mouse: Position, innerWidth: real, innerHeight: real): (p: Position)
    ensures mouse.x + 215.0 > innerWidth ==> p.x == mouse.x - 215.0 && p.x + TooltipWidth < mouse.x
    ensures mouse.x + 215.0 <= innerWidth ==> p.x == mouse.x + 15.0 && p.x + TooltipWidth <= innerWidth
    ensures mouse.y + 165.0 > innerHeight ==> p.y == mouse.y - 165.0 && p.y + TooltipHeight < mouse.y
    ensures mouse.y + 165.0 <= innerHeight ==> p.y == mouse.y + 15.0 && p.y + TooltipHeight <= innerHeight
    ensures p.x > mouse.x || p.x + TooltipWidth < mouse.x
    ensures p.y > mouse.y || p.y + TooltipHeight < mouse.y
  {
    Position(Place(mouse.x, OffsetX, TooltipWidth, innerWidth), Place(mouse.y, OffsetY, TooltipHeight, innerHeight))
  }

  /** One line of the tooltip grid: a key's display name and its value, null shown as 0. */
  datatype Line = Line(key: Key, name: string, value: real)

  /** The two lines shown for one axis pair. */
  datatype Row = Row(first: Line, second: Line)

  /** `hoveredPoint[key] ?? 0` next to `getCategoryDisplayName(key)`. */
  function LineFor(e: Entry, k: Key): Line {
    Line(k, CategoryDisplayName(k), NumberOf(e.Score(k)))
  }

  /** `AXES_CONFIG.map(...)`: one row per axis pair, in AXES_CONFIG order. */
  function Rows(e: Entry, axes: seq<AxisConfig>): (rows: seq<Row>)
    ensures |rows| == |axes|
  {
    seq(|axes|, j requires 0 <= j < |axes| => Row(LineFor(e, axes[j].key), LineFor(e, axes[j].oppositeKey)))
  }

  /** What the tooltip renders: its position, the pseudo as title, and the rows. */
  datatype View = View(position: Position, title: string, rows: seq<Row>)

  /** Tooltip: nothing without a hovered point, otherwise the placed box. */
  function Render(hovered: Option<Entry>, mouse: Position, axes: seq<AxisConfig>, innerWidth: real, innerHeight: real): (v: Option<View>)
    ensures v.None? <==> hovered.None?
    ensures v.Some? ==> v.value.title == hovered.value.pseudo && |v.value.rows| == |axes|
  {
    match hovered
    case None => None
    case Some(e) => Some(View(AdjustedPosition(mouse, innerWidth, innerHeight), e.pseudo, Rows(e, axes)))
  }

  /** The keys shown by a list of rows, first then second line of each row, in order. */
  function ShownKeys(rows: seq<Row>): (keys: seq<Key>)
    ensures |keys| == 2 * |rows|
  {
    if rows == [] then [] else [rows[0].first.key, rows[0].second.key] + ShownKeys(rows[1..])
  }

  /** The rows list exactly the keys of the pairs, pair by pair. */
  lemma {:induction false} ShownKeysArePairKeys(e: Entry, axes: seq<AxisConfig>)
    ensures ShownKeys(Rows(e, axes)) == PairKeys(axes)
  {
    if axes != [] {
      ShownKeysArePairKeys(e, axes[1..]);
      assert Rows(e, axes)[1..] == Rows(e, axes[1..]);
    }
  }

  /**
   * With AXES_CONFIG, the tooltip shows each of the sixteen categories on
   * exactly one line, in declaration order, each with its display name and its
   * value, a null value shown as 0.
   */
  lemma TooltipShowsEveryCategoryOnce(e: Entry)
    ensures ShownKeys(Rows(e, AxesConfig)) == AllKeys
    ensures forall k :: multiset(ShownKeys(Rows(e, AxesConfig)))[k] == 1
    ensures forall j :: 0 <= j < 8 ==>
      && Rows(e, AxesConfig)[j].first == Line(AllKeys[2 * j], CategoryName(AllKeys[2 * j]), NumberOf(e.scores[2 * j]))
      && Rows(e, AxesConfig)[j].second == Line(AllKeys[2 * j + 1], CategoryName(AllKeys[2 * j + 1]), NumberOf(e.scores[2 * j + 1]))
  {
    AxesConfigPartitionsKeys();
    ShownKeysArePairKeys(e, AxesConfig);
    AllKeysDistinct();
    forall j | 0 <= j < 8
      ensures Rows(e, AxesConfig)[j].first == Line(AllKeys[2 * j], CategoryName(AllKeys[2 * j]), NumberOf(e.scores[2 * j]))
      ensures Rows(e, AxesConfig)[j].second == Line(AllKeys[2 * j + 1], CategoryName(AllKeys[2 * j + 1]), NumberOf(e.scores[2 * j + 1]))
    {
      AxisAt(j);
    }
  }

  /** A null score is displayed as 0. */
  lemma NullShownAsZero(e: Entry, axes: seq<AxisConfig>, j: nat)
    requires j < |axes|
    requires e.Score(axes[j].key) == None
    ensures Rows(e, axes)[j].first.value == 0.0
  {
  }
}
