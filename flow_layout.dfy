/**
  The wrapping-row layout used by the chips style (`FlowLayout` in
  Sources/MultiPicker/Styles/ChipsMultiPickerStyle.swift).

  Items are placed left to right, `spacing` apart; an item that would cross
  the available width starts a new row, unless it is already the first item
  of its row. A new row starts below the previous one by that row's tallest
  item plus `spacing`. `CGFloat` is modelled as `real`, and each subview's
  measured size is an input.
*/
module FlowLayoutModel {
  import opened Wrappers

  datatype Size = Size(width: real, height: real)
  datatype Point = Point(x: real, y: real)
  datatype Rect = Rect(minX: real, minY: real, width: real, height: real)

  /** The width `arrange` may fill: a finite limit, or no limit at all. */
  datatype MaxWidth = Finite(limit: real) | Infinity

  /** What `arrange` returns: the bounding size and one top-left position per item. */
  datatype Arrangement = Arrangement(size: Size, positions: seq<Point>)

  /** The default gap of `FlowLayout`, which the chips style also passes explicitly. */
  const DefaultSpacing: real := 8.0

  /** `right > maxWidth`, where nothing is greater than infinity. */
  predicate Exceeds(maxWidth: MaxWidth, right: real) {
    match maxWidth
    case Finite(limit) => right > limit
    case Infinity => false
  }

  function Max(a: real, b: real): real {
    if a < b then b else a
  }

  predicate NonNegative(items: seq<Size>) {
    forall i :: 0 <= i < |items| ==> items[i].width >= 0.0 && items[i].height >= 0.0
  }

  /** The tallest height among `items`, 0 for none (the row height starts at 0). */
  function MaxHeight(items: seq<Size>): real
    decreases |items|
  {
    if items == [] then 0.0 else Max(MaxHeight(items[..|items| - 1]), items[|items| - 1].height)
  }

  // ---------------------------------------------------------------------------
  // Specification of the placement loop, as a fold over prefixes of the items
  // ---------------------------------------------------------------------------

  /**
    The accumulators of `arrange` after some prefix of the items: the
    positions so far, the next x, the current row's y and height, and the
    largest right edge. `rowStart` (index of the current row's first item) is
    not kept by the source; it names the current row.
  */
  datatype Cursor = Cursor(positions: seq<Point>, x: real, y: real, rowHeight: real, maxX: real, rowStart: nat)

  const Start: Cursor := Cursor([], 0.0, 0.0, 0.0, 0.0, 0)

  /** The wrap test: the item would cross the limit and is not first in its row. */
  predicate Wraps(maxWidth: MaxWidth, c: Cursor, item: Size) {
    Exceeds(maxWidth, c.x + item.width) && c.x > 0.0
  }

  /** One iteration of the loop: possibly wrap, then place `item` and advance. */
  function Place(maxWidth: MaxWidth, spacing: real, c: Cursor, item: Size): Cursor {
    var wrap := Wraps(maxWidth, c, item);
    var rowX := if wrap then 0.0 else c.x;
    var rowY := if wrap then c.y + c.rowHeight + spacing else c.y;
    var height := if wrap then 0.0 else c.rowHeight;
    var start := if wrap then |c.positions| else c.rowStart;
    var nextX := rowX + item.width + spacing;
    Cursor(c.positions + [Point(rowX, rowY)], nextX, rowY, Max(height, item.height), Max(c.maxX, nextX - spacing), start)
  }

  function Run(maxWidth: MaxWidth, spacing: real, items: seq<Size>): Cursor
    decreases |items|
  {
    if items == [] then Start
    else Place(maxWidth, spacing, Run(maxWidth, spacing, items[..|items| - 1]), items[|items| - 1])
  }

  /** The result `arrange` returns for `items`. */
  function Arranged(maxWidth: MaxWidth, spacing: real, items: seq<Size>): Arrangement {
    var c := Run(maxWidth, spacing, items);
    Arrangement(Size(c.maxX, c.y + c.rowHeight), c.positions)
  }

  /** The index of the first item of the row that holds item `i`. */
  function RowOf(maxWidth: MaxWidth, spacing: real, items: seq<Size>, i: nat): (r: nat)
    requires i < |items|
    ensures r <= i
  {
    CursorShape(maxWidth, spacing, items[..i + 1]);
    Run(maxWidth, spacing, items[..i + 1]).rowStart
  }

  // ---------------------------------------------------------------------------
  // The layout itself
  // ---------------------------------------------------------------------------

  datatype FlowLayout = FlowLayout(spacing: real) {

    /** `arrange(in:subviews:)`: one pass over the measured sizes. */
    method Arrange(maxWidth: MaxWidth, subviews: seq<Size>) returns (size: Size, positions: seq<Point>)
      ensures Arrangement(size, positions) == Arranged(maxWidth, spacing, subviews)
      ensures |positions| == |subviews|
    {
      positions := [];
      var x, y, rowHeight, maxX := 0.0, 0.0, 0.0, 0.0;
      ghost var rowStart: nat := 0;
      for i := 0 to |subviews|
        invariant |positions| == i
        invariant Cursor(positions, x, y, rowHeight, maxX, rowStart) == Run(maxWidth, spacing, subviews[..i])
      {
        var item := subviews[i];
        assert subviews[..i + 1][..i] == subviews[..i];
        if Exceeds(maxWidth, x + item.width) && x > 0.0 {
          x := 0.0;
          y := y + rowHeight + spacing;
          rowHeight := 0.0;
          rowStart := i;
        }
        positions := positions + [Point(x, y)];
        rowHeight := Max(rowHeight, item.height);
        x := x + item.width + spacing;
        maxX := Max(maxX, x - spacing);
      }
      assert subviews[..|subviews|] == subviews;
      size := Size(maxX, y + rowHeight);
    }

    /** `sizeThatFits`: arrange in the proposed width, or without limit when none is proposed. */
    method SizeThatFits(proposedWidth: Option<real>, subviews: seq<Size>) returns (size: Size)
      ensures proposedWidth.Some? ==> size == Arranged(Finite(proposedWidth.value), spacing, subviews).size
      ensures proposedWidth.None? ==> size == Arranged(Infinity, spacing, subviews).size
    {
      var maxWidth := match proposedWidth
        case Some(w) => Finite(w)
        case None => Infinity;
      var positions;
      size, positions := Arrange(maxWidth, subviews);
    }

    /**
      `placeSubviews`: arrange in the width of `bounds` and place subview `i`
      at the bounds' origin offset by position `i`. The placements are
      returned in subview order.
    */
    method PlaceSubviews(bounds: Rect, subviews: seq<Size>) returns (placed: seq<Point>)
      ensures |placed| == |subviews| == |Arranged(Finite(bounds.width), spacing, subviews).positions|
      ensures forall i :: 0 <= i < |placed| ==>
        var p := Arranged(Finite(bounds.width), spacing, subviews).positions[i];
        placed[i] == Point(bounds.minX + p.x, bounds.minY + p.y)
    {
      var size, positions := Arrange(Finite(bounds.width), subviews);
      placed := [];
      for index := 0 to |positions|
        invariant |placed| == index
        invariant forall i :: 0 <= i < index ==>
          placed[i] == Point(bounds.minX + positions[i].x, bounds.minY + positions[i].y)
      {
        var position := positions[index];
        placed := placed + [Point(bounds.minX + position.x, bounds.minY + position.y)];
      }
    }
  }

  /** `FlowLayout()`, and the `FlowLayout(spacing: 8)` of the chips style. */
  const ChipsLayout: FlowLayout := FlowLayout(DefaultSpacing)

  // ---------------------------------------------------------------------------
  // Facts about the row height
  // ---------------------------------------------------------------------------

  lemma {:induction false} MaxHeightBounds(items: seq<Size>)
    ensures MaxHeight(items) >= 0.0
    ensures forall j :: 0 <= j < |items| ==> items[j].height <= MaxHeight(items)
    decreases |items|
  {
    if items != [] {
      var init := items[..|items| - 1];
      MaxHeightBounds(init);
      assert forall j :: 0 <= j < |init| ==> items[j] == init[j];
    }
  }

  /** The tallest of a suffix that gains one more item. */
  lemma MaxHeightExtends(items: seq<Size>, s: nat)
    requires s < |items|
    ensures MaxHeight(items[s..]) == Max(MaxHeight(items[..|items| - 1][s..]), items[|items| - 1].height)
  {
    assert items[s..][..|items[s..]| - 1] == items[..|items| - 1][s..];
  }

  // ---------------------------------------------------------------------------
  // Invariants of the fold
  // ---------------------------------------------------------------------------

  /** Shape of the cursor: one position per item, the row start, the next x, the current row's y. */
  lemma {:induction false} CursorShape(maxWidth: MaxWidth, spacing: real, items: seq<Size>)
    ensures var c := Run(maxWidth, spacing, items);
      && |c.positions| == |items|
      && c.rowStart <= |items|
      && (items != [] ==> c.rowStart < |items|)
      && (items == [] ==> c == Start)
      && (items != [] ==> c.x == c.positions[|items| - 1].x + items[|items| - 1].width + spacing)
      && (items != [] ==> c.positions[c.rowStart].x == 0.0)
      && (forall j :: c.rowStart <= j < |items| ==> c.positions[j].y == c.y)
      && c.rowHeight == MaxHeight(items[c.rowStart..])
    decreases |items|
  {
    if items != [] {
      var n := |items|;
      var init := items[..n - 1];
      CursorShape(maxWidth, spacing, init);
      var c0 := Run(maxWidth, spacing, init);
      var c := Run(maxWidth, spacing, items);
      assert c == Place(maxWidth, spacing, c0, items[n - 1]);
      MaxHeightExtends(items, c.rowStart);
      if Wraps(maxWidth, c0, items[n - 1]) {
        assert init[c.rowStart..] == [];
      }
      forall j | c.rowStart <= j < n
        ensures c.positions[j].y == c.y
      {
        if j < n - 1 {
          assert c.positions[j] == c0.positions[j];
        }
      }
    }
  }

  /** With non-negative sizes and gap, every coordinate and accumulator stays non-negative. */
  lemma {:induction false} CursorNonNegative(maxWidth: MaxWidth, spacing: real, items: seq<Size>)
    requires NonNegative(items) && spacing >= 0.0
    ensures var c := Run(maxWidth, spacing, items);
      && c.x >= 0.0 && c.y >= 0.0 && c.rowHeight >= 0.0 && c.maxX >= 0.0
      && (forall j :: 0 <= j < |c.positions| ==> c.positions[j].x >= 0.0 && c.positions[j].y >= 0.0)
    decreases |items|
  {
    if items != [] {
      var init := items[..|items| - 1];
      CursorNonNegative(maxWidth, spacing, init);
    }
  }

  /** No item sits below the current row, and the row height is never negative. */
  lemma {:induction false} RowsAtOrAboveCursor(maxWidth: MaxWidth, spacing: real, items: seq<Size>)
    requires spacing >= 0.0
    ensures var c := Run(maxWidth, spacing, items);
      && |c.positions| == |items|
      && c.rowHeight >= 0.0
      && (forall j :: 0 <= j < |items| ==> c.positions[j].y <= c.y)
    decreases |items|
  {
    if items != [] {
      var n := |items|;
      RowsAtOrAboveCursor(maxWidth, spacing, items[..n - 1]);
      var c0 := Run(maxWidth, spacing, items[..n - 1]);
      var c := Run(maxWidth, spacing, items);
      assert c == Place(maxWidth, spacing, c0, items[n - 1]);
      forall j | 0 <= j < n
        ensures c.positions[j].y <= c.y
      {
        if j < n - 1 {
          assert c.positions[j] == c0.positions[j];
        }
      }
    }
  }

  /** Items of earlier rows end above the current row; items of the current row fit its height. */
  lemma {:induction false} RowsStack(maxWidth: MaxWidth, spacing: real, items: seq<Size>)
    requires spacing >= 0.0
    ensures var c := Run(maxWidth, spacing, items);
      && |c.positions| == |items|
      && c.rowStart <= |items|
      && (forall j :: 0 <= j < |items| ==> c.positions[j].y + items[j].height <= c.y + c.rowHeight)
      && (forall j :: 0 <= j < c.rowStart ==> c.positions[j].y + items[j].height <= c.y)
    decreases |items|
  {
    if items != [] {
      var n := |items|;
      var init := items[..n - 1];
      RowsStack(maxWidth, spacing, init);
      var c0 := Run(maxWidth, spacing, init);
      var c := Run(maxWidth, spacing, items);
      assert c == Place(maxWidth, spacing, c0, items[n - 1]);
      forall j | 0 <= j < n
        ensures c.positions[j].y + items[j].height <= c.y + c.rowHeight
      {
        if j < n - 1 {
          assert c.positions[j] == c0.positions[j] && items[j] == init[j];
        }
      }
      forall j | 0 <= j < c.rowStart
        ensures c.positions[j].y + items[j].height <= c.y
      {
        assert j < n - 1;
        assert c.positions[j] == c0.positions[j] && items[j] == init[j];
      }
    }
  }

  /** The largest right edge bounds every item and is reached by one of them. */
  lemma {:induction false} MaxXIsRightmostEdge(maxWidth: MaxWidth, spacing: real, items: seq<Size>)
    requires NonNegative(items)
    ensures var c := Run(maxWidth, spacing, items);
      && |c.positions| == |items|
      && (forall j :: 0 <= j < |items| ==> c.positions[j].x + items[j].width <= c.maxX)
      && (items == [] ==> c.maxX == 0.0)
      && (items != [] ==> exists j :: 0 <= j < |items| && c.positions[j].x + items[j].width == c.maxX)
    decreases |items|
  {
    if items != [] {
      var n := |items|;
      var init := items[..n - 1];
      MaxXIsRightmostEdge(maxWidth, spacing, init);
      var c0 := Run(maxWidth, spacing, init);
      var c := Run(maxWidth, spacing, items);
      assert c == Place(maxWidth, spacing, c0, items[n - 1]);
      forall j | 0 <= j < n
        ensures c.positions[j].x + items[j].width <= c.maxX
      {
        if j < n - 1 {
          assert c.positions[j] == c0.positions[j] && items[j] == init[j];
        }
      }
      if c.maxX == c0.maxX && init != [] {
        var j :| 0 <= j < |init| && c0.positions[j].x + init[j].width == c0.maxX;
        assert c.positions[j] == c0.positions[j] && items[j] == init[j];
      } else {
        assert c.positions[n - 1].x + items[n - 1].width == c.maxX;
      }
    }
  }


  /** The positions of a prefix are a prefix of the positions. */
  lemma {:induction false} PrefixPositions(maxWidth: MaxWidth, spacing: real, items: seq<Size>, k: nat)
    requires k <= |items|
    ensures |Run(maxWidth, spacing, items).positions| == |items|
    ensures Run(maxWidth, spacing, items[..k]).positions == Run(maxWidth, spacing, items).positions[..k]
    decreases |items|
  {
    CursorShape(maxWidth, spacing, items);
    if k < |items| {
      var init := items[..|items| - 1];
      PrefixPositions(maxWidth, spacing, init, k);
      assert init[..k] == items[..k];
    } else {
      assert items[..k] == items;
    }
  }

  /** Item `i` is placed by the loop iteration that sees the cursor of the first `i` items. */
  lemma PositionAt(maxWidth: MaxWidth, spacing: real, items: seq<Size>, i: nat)
    requires i < |items|
    ensures |Run(maxWidth, spacing, items).positions| == |items|
    ensures |Run(maxWidth, spacing, items[..i + 1]).positions| == i + 1
    ensures Run(maxWidth, spacing, items).positions[i]
         == Run(maxWidth, spacing, items[..i + 1]).positions[i]
    ensures Run(maxWidth, spacing, items[..i + 1])
         == Place(maxWidth, spacing, Run(maxWidth, spacing, items[..i]), items[i])
  {
    PrefixPositions(maxWidth, spacing, items, i + 1);
    assert items[..i + 1][..i] == items[..i];
  }

  // ---------------------------------------------------------------------------
  // Properties of `arrange`
  // ---------------------------------------------------------------------------

  /** Exactly one position per item, and the positions of a prefix do not depend on later items. */
  lemma ArrangedOnePositionPerItem(maxWidth: MaxWidth, spacing: real, items: seq<Size>, k: nat)
    requires k <= |items|
    ensures |Arranged(maxWidth, spacing, items).positions| == |items|
    ensures Arranged(maxWidth, spacing, items[..k]).positions == Arranged(maxWidth, spacing, items).positions[..k]
  {
    PrefixPositions(maxWidth, spacing, items, k);
  }

  /** No items: zero size and no positions. */
  lemma ArrangedEmpty(maxWidth: MaxWidth, spacing: real)
    ensures Arranged(maxWidth, spacing, []) == Arrangement(Size(0.0, 0.0), [])
  {
  }

  /** The first item always sits at the origin, however wide it is. */
  lemma FirstItemAtOrigin(maxWidth: MaxWidth, spacing: real, items: seq<Size>)
    requires items != []
    ensures |Arranged(maxWidth, spacing, items).positions| == |items|
    ensures Arranged(maxWidth, spacing, items).positions[0] == Point(0.0, 0.0)
  {
    PositionAt(maxWidth, spacing, items, 0);
  }

  /**
    Every item either starts its row (x = 0) or ends within the limit; an
    item too wide for the limit is still placed, alone at the row start.
  */
  lemma StartsRowOrFits(maxWidth: MaxWidth, spacing: real, items: seq<Size>)
    requires NonNegative(items) && spacing >= 0.0
    ensures |Arranged(maxWidth, spacing, items).positions| == |items|
    ensures forall i :: 0 <= i < |items| ==>
      var p := Arranged(maxWidth, spacing, items).positions[i];
      p.x == 0.0 || !Exceeds(maxWidth, p.x + items[i].width)
  {
    CursorShape(maxWidth, spacing, items);
    forall i | 0 <= i < |items|
      ensures var p := Arranged(maxWidth, spacing, items).positions[i];
        p.x == 0.0 || !Exceeds(maxWidth, p.x + items[i].width)
    {
      PositionAt(maxWidth, spacing, items, i);
      assert NonNegative(items[..i]);
      CursorNonNegative(maxWidth, spacing, items[..i]);
    }
  }

  /**
    How item `i` follows item `i - 1`. Let `end` be the previous item's right
    edge plus the gap. If `end > 0` and `end` plus the item's width crosses
    the limit, the item opens a new row at x = 0, one gap below the previous
    row's tallest item; otherwise it sits at `end` on the previous item's row.
  */
  lemma RowAdvance(maxWidth: MaxWidth, spacing: real, items: seq<Size>, i: nat)
    requires 0 < i < |items|
    ensures |Arranged(maxWidth, spacing, items).positions| == |items|
    ensures
      var p := Arranged(maxWidth, spacing, items).positions;
      var end := p[i - 1].x + items[i - 1].width + spacing;
      var rowTop := RowOf(maxWidth, spacing, items, i - 1);
      && rowTop <= i - 1
      && p[i] == if end > 0.0 && Exceeds(maxWidth, end + items[i].width)
                 then Point(0.0, p[i - 1].y + MaxHeight(items[rowTop..i]) + spacing)
                 else Point(end, p[i - 1].y)
  {
    PositionAt(maxWidth, spacing, items, i);
    PositionAt(maxWidth, spacing, items, i - 1);
    var before := items[..i];
    assert before[..i - 1 + 1] == items[..i];
    CursorShape(maxWidth, spacing, before);
    assert before[|before| - 1] == items[i - 1];
    assert before[Run(maxWidth, spacing, before).rowStart..] == items[Run(maxWidth, spacing, before).rowStart..i];
  }

  /**
    Which row item `i` belongs to: the first item opens the first row, an
    item that wraps (the test of `RowAdvance`) opens a row of its own, and
    any other item joins the row of the item before it.
  */
  lemma RowOfFollowsWraps(maxWidth: MaxWidth, spacing: real, items: seq<Size>, i: nat)
    requires i < |items|
    ensures |Arranged(maxWidth, spacing, items).positions| == |items|
    ensures i == 0 ==> RowOf(maxWidth, spacing, items, i) == 0
    ensures 0 < i ==>
      var p := Arranged(maxWidth, spacing, items).positions;
      var end := p[i - 1].x + items[i - 1].width + spacing;
      RowOf(maxWidth, spacing, items, i)
        == if end > 0.0 && Exceeds(maxWidth, end + items[i].width) then i else RowOf(maxWidth, spacing, items, i - 1)
  {
    PositionAt(maxWidth, spacing, items, i);
    if 0 < i {
      var before := items[..i];
      var c0 := Run(maxWidth, spacing, before);
      var p := Arranged(maxWidth, spacing, items).positions;
      assert c0.x == p[i - 1].x + items[i - 1].width + spacing by {
        CursorShape(maxWidth, spacing, before);
        PrefixPositions(maxWidth, spacing, items, i);
        assert before[i - 1] == items[i - 1];
      }
      assert RowOf(maxWidth, spacing, items, i - 1) == c0.rowStart;
    }
  }

  /** The items from `RowOf(i)` to `i` form one row: it starts at x = 0 and all share item `i`'s y. */
  lemma RowShape(maxWidth: MaxWidth, spacing: real, items: seq<Size>, i: nat)
    requires i < |items|
    ensures |Arranged(maxWidth, spacing, items).positions| == |items|
    ensures
      var p := Arranged(maxWidth, spacing, items).positions;
      var rowTop := RowOf(maxWidth, spacing, items, i);
      && rowTop <= i
      && p[rowTop].x == 0.0
      && forall j :: rowTop <= j <= i ==> p[j].y == p[i].y
  {
    PrefixPositions(maxWidth, spacing, items, i + 1);
    CursorShape(maxWidth, spacing, items[..i + 1]);
  }

  /** Rows go downwards: y never decreases along the items. */
  lemma {:induction false} RowsDescend(maxWidth: MaxWidth, spacing: real, items: seq<Size>)
    requires spacing >= 0.0
    ensures |Arranged(maxWidth, spacing, items).positions| == |items|
    ensures forall i, j :: 0 <= i <= j < |items| ==>
      Arranged(maxWidth, spacing, items).positions[i].y <= Arranged(maxWidth, spacing, items).positions[j].y
    decreases |items|
  {
    RowsAtOrAboveCursor(maxWidth, spacing, items);
    if items != [] {
      var n := |items|;
      var init := items[..n - 1];
      RowsDescend(maxWidth, spacing, init);
      RowsAtOrAboveCursor(maxWidth, spacing, init);
      var c0 := Run(maxWidth, spacing, init);
      var c := Run(maxWidth, spacing, items);
      assert c == Place(maxWidth, spacing, c0, items[n - 1]);
      forall i, j | 0 <= i <= j < n
        ensures c.positions[i].y <= c.positions[j].y
      {
        if j < n - 1 {
          assert c.positions[i] == c0.positions[i] && c.positions[j] == c0.positions[j];
        } else if i < n - 1 {
          assert c.positions[i] == c0.positions[i];
        }
      }
    }
  }


  /**
    The returned size is the bounding box of the items: its width is the
    largest right edge, its height the last row's y plus that row's tallest
    item, and every item lies within it.
  */
  lemma BoundingSize(maxWidth: MaxWidth, spacing: real, items: seq<Size>)
    requires NonNegative(items) && spacing >= 0.0
    ensures |Arranged(maxWidth, spacing, items).positions| == |items|
    ensures
      var a := Arranged(maxWidth, spacing, items);
      && (forall i :: 0 <= i < |items| ==>
            && 0.0 <= a.positions[i].x && a.positions[i].x + items[i].width <= a.size.width
            && 0.0 <= a.positions[i].y && a.positions[i].y + items[i].height <= a.size.height)
      && (items == [] ==> a.size == Size(0.0, 0.0))
      && (items != [] ==> exists i :: 0 <= i < |items| && a.positions[i].x + items[i].width == a.size.width)
      && (items != [] ==>
            a.size.height == a.positions[|items| - 1].y
                             + MaxHeight(items[RowOf(maxWidth, spacing, items, |items| - 1)..]))
  {
    CursorShape(maxWidth, spacing, items);
    CursorNonNegative(maxWidth, spacing, items);
    RowsStack(maxWidth, spacing, items);
    MaxXIsRightmostEdge(maxWidth, spacing, items);
    if items != [] {
      assert items[..|items| - 1 + 1] == items;
    }
  }

  /** With no width limit nothing wraps: one row at y = 0, items a gap apart. */
  lemma UnboundedSingleRow(spacing: real, items: seq<Size>)
    ensures |Arranged(Infinity, spacing, items).positions| == |items|
    ensures forall i :: 0 <= i < |items| ==> Arranged(Infinity, spacing, items).positions[i].y == 0.0
    ensures forall i :: 0 < i < |items| ==>
      var p := Arranged(Infinity, spacing, items).positions;
      p[i].x == p[i - 1].x + items[i - 1].width + spacing
    ensures Arranged(Infinity, spacing, items).size.height == MaxHeight(items)
  {
    NeverWrapsUnbounded(spacing, items);
    CursorShape(Infinity, spacing, items);
    forall i | 0 < i < |items|
      ensures var p := Arranged(Infinity, spacing, items).positions;
        p[i].x == p[i - 1].x + items[i - 1].width + spacing
    {
      RowAdvance(Infinity, spacing, items, i);
    }
  }

  lemma {:induction false} NeverWrapsUnbounded(spacing: real, items: seq<Size>)
    ensures Run(Infinity, spacing, items).rowStart == 0
    ensures Run(Infinity, spacing, items).y == 0.0
    decreases |items|
  {
    if items != [] {
      NeverWrapsUnbounded(spacing, items[..|items| - 1]);
    }
  }

  // ---------------------------------------------------------------------------
  // Identical items: a grid
  // ---------------------------------------------------------------------------

  predicate AllSame(items: seq<Size>, item: Size) {
    forall i :: 0 <= i < |items| ==> items[i] == item
  }

  /** `j` steps of `step`, written as repeated addition: `j * step`. */
  function Offset(j: nat, step: real): real
    decreases j
  {
    if j == 0 then 0.0 else Offset(j - 1, step) + step
  }

  lemma {:induction false} OffsetIsProduct(j: nat, step: real)
    ensures Offset(j, step) == j as real * step
    decreases j
  {
    if j > 0 {
      OffsetIsProduct(j - 1, step);
      assert j as real * step == (j - 1) as real * step + step;
    }
  }

  lemma {:induction false} OffsetMonotone(a: nat, b: nat, step: real)
    requires a <= b && step >= 0.0
    ensures Offset(a, step) <= Offset(b, step)
    decreases b
  {
    if a < b {
      OffsetMonotone(a, b - 1, step);
    }
  }

  /**
    `k` items of width `width` fit in one row of `limit`, and `k + 1` do not
    (or `k` is 1): the number of items per row,
    max(1, floor((limit + spacing) / (width + spacing))), stated without division.
  */
  predicate RowCapacity(width: real, spacing: real, limit: real, k: nat) {
    && k >= 1
    && (k == 1 || Offset(k - 1, width + spacing) + width <= limit)
    && Offset(k, width + spacing) + width > limit
  }

  /** `max(1, floor((limit + spacing) / (width + spacing)))`: how many identical items a row holds. */
  function Capacity(width: real, spacing: real, limit: real): nat
    requires width + spacing > 0.0
  {
    var f := ((limit + spacing) / (width + spacing)).Floor;
    if f < 1 then 1 else f
  }

  /** The closed formula meets the defining inequalities of the row capacity. */
  lemma CapacityIsRowCapacity(width: real, spacing: real, limit: real)
    requires width + spacing > 0.0
    ensures RowCapacity(width, spacing, limit, Capacity(width, spacing, limit))
  {
    var step := width + spacing;
    var q := (limit + spacing) / step;
    var k := Capacity(width, spacing, limit);
    CapacityArithmetic(step, limit + spacing, q, k as real);
    OffsetIsProduct(k, step);
    if k > 1 {
      assert k as real <= q;
      assert Offset(k - 1, step) == Offset(k, step) - step;
    }
  }

  /** With `q = total / step`, `kr + 1` steps exceed `total`, and `kr` steps do not when `kr <= q`. */
  lemma CapacityArithmetic(step: real, total: real, q: real, kr: real)
    requires step > 0.0 && q == total / step && q < kr + 1.0
    ensures kr * step + step > total
    ensures kr <= q ==> kr * step <= total
  {
    assert q * step == total;
    ScaleStrict(q, kr + 1.0, step);
    assert (kr + 1.0) * step == kr * step + step;
    if kr <= q {
      ScaleMonotone(kr, q, step);
    }
  }

  lemma ScaleMonotone(a: real, b: real, c: real)
    requires a <= b && c > 0.0
    ensures a * c <= b * c
  {
    assert b * c - a * c == (b - a) * c;
  }

  lemma ScaleStrict(a: real, b: real, c: real)
    requires a < b && c > 0.0
    ensures a * c < b * c
  {
    assert b * c - a * c == (b - a) * c;
  }

  lemma DivModStep(a: int, k: int)
    requires a >= 0 && k >= 1
    ensures a % k + 1 < k ==> (a + 1) % k == a % k + 1 && (a + 1) / k == a / k
    ensures a % k + 1 == k ==> (a + 1) % k == 0 && (a + 1) / k == a / k + 1
  {
    var q, m := a / k, a % k;
    assert a == q * k + m;
    if m + 1 < k {
      DivModUnique(a + 1, k, q, m + 1);
    } else {
      assert a + 1 == (q + 1) * k;
      DivModUnique(a + 1, k, q + 1, 0);
    }
  }

  lemma DivModUnique(a: int, k: int, q: int, m: int)
    requires k >= 1 && 0 <= m < k && a == q * k + m
    ensures a / k == q && a % k == m
  {
    var q', m' := a / k, a % k;
    assert a == q' * k + m';
    assert (q - q') * k == m' - m;
    SmallMultipleIsZero(q - q', k);
  }

  /** A multiple of `k` strictly between `-k` and `k` is zero. */
  lemma SmallMultipleIsZero(d: int, k: int)
    requires k >= 1 && -k < d * k < k
    ensures d == 0
  {
  }

  lemma DivModBase(k: int)
    requires k >= 1
    ensures 0 % k == 0 && 0 / k == 0
  {
    DivModUnique(0, k, 0, 0);
  }

  /** The column of item `i` in a grid of `k` columns, counted item by item. */
  function Column(i: nat, k: nat): (c: nat)
    requires k >= 1
    ensures c < k
    decreases i
  {
    if i == 0 then 0 else if Column(i - 1, k) + 1 == k then 0 else Column(i - 1, k) + 1
  }

  /** The row of item `i` in a grid of `k` columns, counted item by item. */
  function GridRow(i: nat, k: nat): nat
    requires k >= 1
    decreases i
  {
    if i == 0 then 0 else if Column(i - 1, k) + 1 == k then GridRow(i - 1, k) + 1 else GridRow(i - 1, k)
  }

  lemma {:induction false} ColumnAndRowAreModAndDiv(i: nat, k: nat)
    requires k >= 1
    ensures Column(i, k) == i % k && GridRow(i, k) == i / k
    decreases i
  {
    if i == 0 {
      DivModBase(k);
    } else {
      ColumnAndRowAreModAndDiv(i - 1, k);
      DivModStep(i - 1, k);
    }
  }

  /** The column and row after the item at (`m`, `q`) in a grid of `k` columns. */
  function NextCell(m: nat, q: nat, k: nat): (nat, nat) {
    if m + 1 == k then (0, q + 1) else (m + 1, q)
  }

  /**
    One identical item placed after the one at column `m`, row `q`: it goes
    to the next cell of the grid, wrapping exactly when the row is full.
  */
  lemma PlaceInGrid(limit: real, spacing: real, item: Size, k: nat, c0: Cursor, m: nat, q: nat)
    requires item.width >= 0.0 && item.height >= 0.0 && spacing >= 0.0 && item.width + spacing > 0.0
    requires RowCapacity(item.width, spacing, limit, k) && m < k
    requires c0.x == Offset(m + 1, item.width + spacing) && c0.y == Offset(q, item.height + spacing)
    requires c0.rowHeight == item.height
    ensures var c := Place(Finite(limit), spacing, c0, item);
      var (m', q') := NextCell(m, q, k);
      && c.positions == c0.positions + [Point(Offset(m', item.width + spacing), Offset(q', item.height + spacing))]
      && c.x == Offset(m' + 1, item.width + spacing)
      && c.y == Offset(q', item.height + spacing)
      && c.rowHeight == item.height
  {
    var step := item.width + spacing;
    assert c0.x >= step by { OffsetMonotone(1, m + 1, step); }
    if m + 1 != k {
      OffsetMonotone(m + 1, k - 1, step);
    }
  }

  /** The top-left corner of the cell of item `i` in a grid of `k` columns. */
  function Cell(i: nat, k: nat, step: real, drop: real): Point
    requires k >= 1
  {
    Point(Offset(Column(i, k), step), Offset(GridRow(i, k), drop))
  }

  /**
    The cursor holds `n` identical items laid out as a grid of `k` columns:
    each at its cell, with the next x, the row's y and height those of the
    last cell (or those of the start, for no items).
  */
  predicate GridCursor(c: Cursor, n: nat, k: nat, item: Size, spacing: real)
    requires k >= 1
  {
    && |c.positions| == n
    && (forall i :: 0 <= i < n ==> c.positions[i] == Cell(i, k, item.width + spacing, item.height + spacing))
    && (n == 0 ==> c.x == 0.0 && c.y == 0.0 && c.rowHeight == 0.0)
    && (n > 0 ==>
          && c.x == Offset(Column(n - 1, k) + 1, item.width + spacing)
          && c.y == Offset(GridRow(n - 1, k), item.height + spacing)
          && c.rowHeight == item.height)
  }

  /** Placing one more identical item on a grid cursor of `n` items gives one of `n + 1`. */
  lemma GridStep(limit: real, spacing: real, item: Size, k: nat, c0: Cursor, n: nat)
    requires item.width >= 0.0 && item.height >= 0.0 && spacing >= 0.0 && item.width + spacing > 0.0
    requires RowCapacity(item.width, spacing, limit, k)
    requires GridCursor(c0, n, k, item, spacing)
    ensures GridCursor(Place(Finite(limit), spacing, c0, item), n + 1, k, item, spacing)
  {
    var step, drop := item.width + spacing, item.height + spacing;
    var c := Place(Finite(limit), spacing, c0, item);
    if n > 0 {
      PlaceInGrid(limit, spacing, item, k, c0, Column(n - 1, k), GridRow(n - 1, k));
    }
    assert c.positions == c0.positions + [Cell(n, k, step, drop)];
    forall i | 0 <= i < n + 1
      ensures c.positions[i] == Cell(i, k, step, drop)
    {
      if i < n {
        assert c.positions[i] == c0.positions[i];
      }
    }
  }

  /** The cursor after identical items is a grid cursor. */
  lemma {:induction false} SameSizeCursor(limit: real, spacing: real, item: Size, items: seq<Size>, k: nat)
    requires AllSame(items, item) && item.width >= 0.0 && item.height >= 0.0 && spacing >= 0.0
    requires item.width + spacing > 0.0
    requires RowCapacity(item.width, spacing, limit, k)
    ensures GridCursor(Run(Finite(limit), spacing, items), |items|, k, item, spacing)
    decreases |items|
  {
    if items != [] {
      var n := |items|;
      var init := items[..n - 1];
      assert AllSame(init, item);
      SameSizeCursor(limit, spacing, item, init, k);
      assert items[n - 1] == item;
      GridStep(limit, spacing, item, k, Run(Finite(limit), spacing, init), n - 1);
    }
  }

  /** Positions at the cells of their indices are at column `i % k` and row `i / k`. */
  lemma CellsAtModAndDiv(positions: seq<Point>, k: nat, step: real, drop: real)
    requires k >= 1
    requires forall i :: 0 <= i < |positions| ==> positions[i] == Cell(i, k, step, drop)
    ensures forall i :: 0 <= i < |positions| ==> positions[i] == Point(Offset(i % k, step), Offset(i / k, drop))
  {
    forall i | 0 <= i < |positions|
      ensures positions[i] == Point(Offset(i % k, step), Offset(i / k, drop))
    {
      ColumnAndRowAreModAndDiv(i, k);
    }
  }

  /**
    Identical items in a finite width form a grid of `k` columns, `k` being
    the row capacity max(1, floor((limit + spacing) / (width + spacing))):
    item i sits `i % k` steps of `width + spacing` across and `i / k` steps of
    `height + spacing` down (`OffsetIsProduct` turns a number of steps into a
    product), so every row but the last holds exactly `k` items.
  */
  lemma {:induction false} SameSizeItemsFormGrid(limit: real, spacing: real, item: Size, items: seq<Size>)
    requires AllSame(items, item) && item.width >= 0.0 && item.height >= 0.0 && spacing >= 0.0
    requires item.width + spacing > 0.0
    ensures |Arranged(Finite(limit), spacing, items).positions| == |items|
    ensures var k := Capacity(item.width, spacing, limit);
      forall i :: 0 <= i < |items| ==>
        Arranged(Finite(limit), spacing, items).positions[i]
          == Point(Offset(i % k, item.width + spacing), Offset(i / k, item.height + spacing))
  {
    var k := Capacity(item.width, spacing, limit);
    var step, drop := item.width + spacing, item.height + spacing;
    var positions := Arranged(Finite(limit), spacing, items).positions;
    assert |positions| == |items| && forall i :: 0 <= i < |positions| ==> positions[i] == Cell(i, k, step, drop) by {
      CapacityIsRowCapacity(item.width, spacing, limit);
      SameSizeCursor(limit, spacing, item, items, k);
    }
    CellsAtModAndDiv(positions, k, step, drop);
  }
}
