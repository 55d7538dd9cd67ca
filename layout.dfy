/** The grid auto-layout group: a row/column partition of its active children, a cell size,
    and the position pass that writes each laid-out child's rect. Sizes and positions are
    exact reals; the square root and the ceilings are exact integer functions. */
module Layout {

  /** A two-component vector of the engine (sizes, positions, spacing). */
  datatype Vec2 = Vec2(x: real, y: real)

  /** The padding box of a layout group; the engine keeps it in whole units. */
  datatype Padding = Padding(left: int, right: int, top: int, bottom: int)

  datatype FitType = Uniform | Width | Height | FixedRows | FixedColumns

  /** One entry of the group's child list: whether its object is active, and its rect. */
  datatype ChildRect = ChildRect(active: bool, x: real, y: real, width: real, height: real)

  /** The settings of one grid group that its layout pass reads and writes. */
  datatype GridConfig = GridConfig(
    fitType: FitType,
    rows: int,
    columns: int,
    fitX: bool,
    fitY: bool,
    uniqueX: bool,
    uniqueY: bool,
    cellSize: Vec2,
    spacing: Vec2)

  // ---------------------------------------------------------------------------------------
  // Counting active children

  /** The number of children whose active flag is set. */
  function ActiveCount(cs: seq<ChildRect>): (n: nat)
    ensures n <= |cs|
    ensures n == |cs| <==> forall k :: 0 <= k < |cs| ==> cs[k].active
  {
    if cs == [] then 0
    else ActiveCount(cs[..|cs| - 1]) + (if cs[|cs| - 1].active then 1 else 0)
  }

  /** The count depends on the active flags alone. */
  lemma {:induction false} ActiveCountFlagsOnly(a: seq<ChildRect>, b: seq<ChildRect>)
    requires |a| == |b|
    requires forall k :: 0 <= k < |a| ==> a[k].active == b[k].active
    ensures ActiveCount(a) == ActiveCount(b)
  {
    if a != [] {
      ActiveCountFlagsOnly(a[..|a| - 1], b[..|b| - 1]);
    }
  }

  // ---------------------------------------------------------------------------------------
  // Exact integer replacements for the engine's float ceilings

  /** `CeilToInt(n / (float)d)` computed exactly: the ceiling of n/d for a divisor of either sign. */
  function CeilDiv(n: nat, d: int): (q: int)
    requires d != 0
    ensures d > 0 ==> q * d >= n && (q - 1) * d < n
    ensures d < 0 ==> q * d <= n && (q - 1) * d > n
  {
    if d > 0 then (n + d - 1) / d else -(n / -d)
  }

  /** `CeilToInt(Sqrt(n))` computed exactly: the least k with k * k >= n. */
  function CeilSqrt(n: nat): (k: nat)
    ensures k * k >= n
    ensures k == 0 || (k - 1) * (k - 1) < n
  {
    CeilSqrtFrom(n, 0)
  }

  /** Search upwards from k, which is known to be at most the answer. */
  function CeilSqrtFrom(n: nat, k: nat): (r: nat)
    requires k == 0 || (k - 1) * (k - 1) < n
    ensures r * r >= n
    ensures r == 0 || (r - 1) * (r - 1) < n
    decreases n - k
  {
    if k * k >= n then k
    else
      assert k <= k * k;
      CeilSqrtFrom(n, k + 1)
  }

  // ---------------------------------------------------------------------------------------
  // Partition and cell size (GridLayout.CalculateLayoutInputHorizontal, first half)

  predicate SquareFit(t: FitType) { t == Uniform || t == Width || t == Height }
  predicate ColumnsGiven(t: FitType) { t == Width || t == FixedColumns }
  predicate RowsGiven(t: FitType) { t == Height || t == FixedRows }

  /** First step: a square-fit type turns both fit flags on and takes the ceiling square root. */
  function SquareStep(cfg: GridConfig, n: nat): GridConfig
  {
    if SquareFit(cfg.fitType) then
      cfg.(fitX := true, fitY := true, rows := CeilSqrt(n), columns := CeilSqrt(n))
    else cfg
  }

  /** Second step: with the columns given, the rows are the ceiling of n / columns. */
  function ColumnsStep(cfg: GridConfig, n: nat): GridConfig
  {
    if ColumnsGiven(cfg.fitType) && cfg.columns != 0 then cfg.(rows := CeilDiv(n, cfg.columns))
    else cfg
  }

  /** Third step: with the rows given, the columns are the ceiling of n / rows. */
  function RowsStep(cfg: GridConfig, n: nat): GridConfig
  {
    if RowsGiven(cfg.fitType) && cfg.rows != 0 then cfg.(columns := CeilDiv(n, cfg.rows))
    else cfg
  }

  /** The row/column partition for n active children under the group's fit type. */
  function Partition(cfg: GridConfig, n: nat): (r: GridConfig)
    ensures r.(rows := cfg.rows, columns := cfg.columns, fitX := cfg.fitX, fitY := cfg.fitY) == cfg
    ensures r.fitX == (cfg.fitX || SquareFit(cfg.fitType)) && r.fitY == (cfg.fitY || SquareFit(cfg.fitType))
  {
    RowsStep(ColumnsStep(SquareStep(cfg, n), n), n)
  }

  function Abs(x: int): nat { if x < 0 then -x else x }

  /** The engine's `/` on two ints: the quotient of the magnitudes, negated when the signs differ. */
  function TruncDiv(a: int, b: int): (q: int)
    requires b != 0
    ensures (a >= 0) == (b > 0) ==> q >= 0
    ensures (a >= 0) != (b > 0) ==> q <= 0
  {
    var m := Abs(a) / Abs(b);
    if (a >= 0) == (b > 0) then m else -m
  }

  /** The quotient is truncated toward zero: the remainder has the sign of the dividend and is
      smaller than the divisor in size. */
  lemma TruncDivRemainder(a: int, b: int)
    requires b != 0
    ensures a >= 0 ==> 0 <= a - TruncDiv(a, b) * b < Abs(b)
    ensures a < 0 ==> 0 <= TruncDiv(a, b) * b - a < Abs(b)
  {
    var m, r := Abs(a) / Abs(b), Abs(a) % Abs(b);
    assert Abs(a) == m * Abs(b) + r;
    if b > 0 {
      assert m * b == m * Abs(b);
    } else {
      assert m * b == -(m * Abs(b));
    }
  }

  /** A divisor that divides the dividend leaves no truncation. */
  lemma TruncDivExact(a: int, b: int)
    requires b > 0 && a % b == 0
    ensures TruncDiv(a, b) * b == a
  {
    if a < 0 {
      DivideMultiple(-a, b, -(a / b));
    }
  }

  /** Dividing an exact multiple gives back the factor. */
  lemma DivideMultiple(x: int, b: int, q: int)
    requires b > 0 && x == q * b
    ensures x / b == q
  {
    var d := x / b - q;
    assert d * b == -(x % b);
    if d >= 1 {
      assert false;
    } else if d <= -1 {
      assert false;
    }
  }

  /** The width of a fitted column: the parent width, less the gaps, shared by the columns,
      less each side's padding divided by the column count in whole units. */
  function FitWidth(parentWidth: real, columns: int, spacingX: real, pad: Padding): (w: real)
    requires columns != 0
    ensures columns as real * w + (columns - 1) as real * spacingX
            + columns as real * (TruncDiv(pad.left, columns) + TruncDiv(pad.right, columns)) as real
            == parentWidth
  {
    var c := columns as real;
    (parentWidth / c) - ((spacingX / c) * (c - 1.0))
      - TruncDiv(pad.left, columns) as real - TruncDiv(pad.right, columns) as real
  }

  /** The height of a fitted row; only the bottom padding is taken off, not the top. */
  function FitHeight(parentHeight: real, rows: int, spacingY: real, pad: Padding): (h: real)
    requires rows != 0
    ensures rows as real * h + (rows - 1) as real * spacingY
            + rows as real * TruncDiv(pad.bottom, rows) as real == parentHeight
  {
    var r := rows as real;
    (parentHeight / r) - ((spacingY / r) * (r - 1.0)) - TruncDiv(pad.bottom, rows) as real
  }

  /** The cell size a partitioned group computes: a fitted axis shares the parent extent,
      a non-fitted axis keeps the stored size, and an axis with no rows or columns gets 0. */
  function CellSizeFor(p: GridConfig, parentWidth: real, parentHeight: real, pad: Padding): (r: Vec2)
    ensures p.columns == 0 ==> r.x == 0.0
    ensures p.columns != 0 && !p.fitX ==> r.x == p.cellSize.x
    ensures p.columns != 0 && p.fitX ==> r.x == FitWidth(parentWidth, p.columns, p.spacing.x, pad)
    ensures p.rows == 0 ==> r.y == 0.0
    ensures p.rows != 0 && !p.fitY ==> r.y == p.cellSize.y
    ensures p.rows != 0 && p.fitY ==> r.y == FitHeight(parentHeight, p.rows, p.spacing.y, pad)
  {
    var w := if p.columns == 0 then 0.0
             else if p.fitX then FitWidth(parentWidth, p.columns, p.spacing.x, pad)
             else p.cellSize.x;
    var h := if p.rows == 0 then 0.0
             else if p.fitY then FitHeight(parentHeight, p.rows, p.spacing.y, pad)
             else p.cellSize.y;
    Vec2(w, h)
  }

  /** The settings after the first half of a layout pass over n active children:
      the partition, then the cell size stored back into the settings. */
  function Reconfigure(cfg: GridConfig, n: nat, parentWidth: real, parentHeight: real, pad: Padding)
    : (r: GridConfig)
    ensures r.(rows := cfg.rows, columns := cfg.columns, fitX := cfg.fitX, fitY := cfg.fitY,
               cellSize := cfg.cellSize) == cfg
    ensures r.fitX == (cfg.fitX || SquareFit(cfg.fitType)) && r.fitY == (cfg.fitY || SquareFit(cfg.fitType))
  {
    var p := Partition(cfg, n);
    p.(cellSize := CellSizeFor(p, parentWidth, parentHeight, pad))
  }

  // ---------------------------------------------------------------------------------------
  // Cell index of a laid-out child

  /** The row of laid-out index i; it stays 0 while the group has no columns. */
  function RowOf(i: nat, columns: int): (r: int)
    ensures columns == 0 ==> r == 0
    ensures columns > 0 ==> 0 <= r
  {
    if columns != 0 then i / columns else 0
  }

  /** The column of laid-out index i; it stays 0 while the group has no columns. */
  function ColumnOf(i: nat, columns: int): (c: nat)
    ensures columns == 0 ==> c == 0
    ensures columns != 0 ==> c < Abs(columns)
  {
    if columns != 0 then i % columns else 0
  }

  // ---------------------------------------------------------------------------------------
  // Positions (GridLayout.CalculateLayoutInputHorizontal, second half)

  function AdvanceX(x: real, width: real, cfg: GridConfig, col: int, pad: Padding): real
  {
    x + width + cfg.spacing.x * col as real + pad.left as real
  }
  function AdvanceY(y: real, height: real, cfg: GridConfig, row: int, pad: Padding): real
  {
    y + height + cfg.spacing.y * row as real + pad.top as real
  }

  /** The running x offset of child i on a unique-width axis: each earlier child advances it by
      its width, by the spacing times its column, and by the left padding. */
  function OffsetX(cs: seq<ChildRect>, i: nat, cfg: GridConfig, pad: Padding): real
    requires i <= |cs|
  {
    if i == 0 then 0.0
    else AdvanceX(OffsetX(cs, i - 1, cfg, pad), cs[i - 1].width, cfg, ColumnOf(i - 1, cfg.columns), pad)
  }

  /** The running y offset of child i on a unique-height axis. */
  function OffsetY(cs: seq<ChildRect>, i: nat, cfg: GridConfig, pad: Padding): real
    requires i <= |cs|
  {
    if i == 0 then 0.0
    else AdvanceY(OffsetY(cs, i - 1, cfg, pad), cs[i - 1].height, cfg, RowOf(i - 1, cfg.columns), pad)
  }

  /** The grid-formula x position of a child in column c. */
  function GridX(cfg: GridConfig, c: int, pad: Padding): real
  {
    cfg.cellSize.x * c as real + cfg.spacing.x * c as real + pad.left as real
  }

  /** The grid-formula y position of a child in row r. */
  function GridY(cfg: GridConfig, r: int, pad: Padding): real
  {
    cfg.cellSize.y * r as real + cfg.spacing.y * r as real + pad.top as real
  }

  /** A child placed in the given row and column: on a uniform axis it gets the grid position
      and the cell size, on a unique axis the running offset and it keeps its own size. */
  function PlaceAt(c: ChildRect, cfg: GridConfig, row: int, col: int, xOff: real, yOff: real, pad: Padding)
    : (r: ChildRect)
    ensures r.active == c.active
    ensures cfg.uniqueX ==> r.width == c.width && r.x == xOff
    ensures cfg.uniqueY ==> r.height == c.height && r.y == yOff
    ensures !cfg.uniqueX ==> r.width == cfg.cellSize.x && r.x == GridX(cfg, col, pad)
    ensures !cfg.uniqueY ==> r.height == cfg.cellSize.y && r.y == GridY(cfg, row, pad)
  {
    c.(
      x := if cfg.uniqueX then xOff else GridX(cfg, col, pad),
      width := if cfg.uniqueX then c.width else cfg.cellSize.x,
      y := if cfg.uniqueY then yOff else GridY(cfg, row, pad),
      height := if cfg.uniqueY then c.height else cfg.cellSize.y)
  }

  /** Child i after the pass. */
  function Place(cs: seq<ChildRect>, i: nat, cfg: GridConfig, pad: Padding): ChildRect
    requires i < |cs|
  {
    PlaceAt(cs[i], cfg, RowOf(i, cfg.columns), ColumnOf(i, cfg.columns),
            OffsetX(cs, i, cfg, pad), OffsetY(cs, i, cfg, pad), pad)
  }

  /** The child list after the pass: the first n entries placed, the others untouched. */
  function Arrange(cs: seq<ChildRect>, n: nat, cfg: GridConfig, pad: Padding): (r: seq<ChildRect>)
    requires n <= |cs|
    ensures |r| == |cs|
  {
    seq(|cs|, i requires 0 <= i < |cs| => if i < n then Place(cs, i, cfg, pad) else cs[i])
  }

  /** One step of the position loop: placing child i at its row, column and running offsets
      extends the arranged prefix by one, advances the offsets to those of child i + 1, and
      keeps the active count (the loop bound) unchanged. */
  lemma PlaceNext(cs: seq<ChildRect>, i: nat, cfg: GridConfig, pad: Padding,
                  row: int, col: int, xOff: real, yOff: real)
    requires i < |cs|
    requires row == RowOf(i, cfg.columns) && col == ColumnOf(i, cfg.columns)
    requires cfg.uniqueX ==> xOff == OffsetX(cs, i, cfg, pad)
    requires cfg.uniqueY ==> yOff == OffsetY(cs, i, cfg, pad)
    ensures Arrange(cs, i, cfg, pad)[i := PlaceAt(cs[i], cfg, row, col, xOff, yOff, pad)]
            == Arrange(cs, i + 1, cfg, pad)
    ensures cfg.uniqueX ==> AdvanceX(xOff, cs[i].width, cfg, col, pad) == OffsetX(cs, i + 1, cfg, pad)
    ensures cfg.uniqueY ==> AdvanceY(yOff, cs[i].height, cfg, row, pad) == OffsetY(cs, i + 1, cfg, pad)
    ensures ActiveCount(Arrange(cs, i + 1, cfg, pad)) == ActiveCount(cs)
  {
    assert PlaceAt(cs[i], cfg, row, col, xOff, yOff, pad) == Place(cs, i, cfg, pad);
    ArrangeKeepsActive(cs, i + 1, cfg, pad);
  }

  /** The pass never changes an active flag, so the count it runs to stays put. */
  lemma ArrangeKeepsActive(cs: seq<ChildRect>, n: nat, cfg: GridConfig, pad: Padding)
    requires n <= |cs|
    ensures ActiveCount(Arrange(cs, n, cfg, pad)) == ActiveCount(cs)
  {
    ActiveCountFlagsOnly(Arrange(cs, n, cfg, pad), cs);
  }

  // ---------------------------------------------------------------------------------------
  // What the partition promises

  /** A Uniform group is the least square that holds the active children, with both axes fitted;
      everything but the partition and the fit flags is kept. */
  lemma UniformPartition(cfg: GridConfig, n: nat)
    requires cfg.fitType == Uniform
    ensures var p := Partition(cfg, n);
      p.fitX && p.fitY && p.rows == p.columns
      && p.rows * p.rows >= n && (p.rows == 0 || (p.rows - 1) * (p.rows - 1) < n)
      && p.(rows := cfg.rows, columns := cfg.columns, fitX := cfg.fitX, fitY := cfg.fitY) == cfg
  {
  }

  /** A Width group takes the square root's ceiling as its column count and then the fewest
      rows that hold the children in those columns. */
  lemma WidthPartition(cfg: GridConfig, n: nat)
    requires cfg.fitType == Width
    ensures var p := Partition(cfg, n);
      p.fitX && p.fitY
      && p.columns * p.columns >= n && (p.columns == 0 || (p.columns - 1) * (p.columns - 1) < n)
      && p.rows >= 0 && p.rows * p.columns >= n && (n == 0 || (p.rows - 1) * p.columns < n)
      && p.(rows := cfg.rows, columns := cfg.columns, fitX := cfg.fitX, fitY := cfg.fitY) == cfg
  {
  }

  /** A Height group takes the square root's ceiling as its row count and then the fewest
      columns that hold the children in those rows. */
  lemma HeightPartition(cfg: GridConfig, n: nat)
    requires cfg.fitType == Height
    ensures var p := Partition(cfg, n);
      p.fitX && p.fitY
      && p.rows * p.rows >= n && (p.rows == 0 || (p.rows - 1) * (p.rows - 1) < n)
      && p.columns >= 0 && p.rows * p.columns >= n && (n == 0 || (p.columns - 1) * p.rows < n)
      && p.(rows := cfg.rows, columns := cfg.columns, fitX := cfg.fitX, fitY := cfg.fitY) == cfg
  {
  }

  /** A FixedColumns group keeps its columns and fit flags; with a positive column count it takes
      the fewest rows that hold the children, and with no columns nothing changes. */
  lemma FixedColumnsPartition(cfg: GridConfig, n: nat)
    requires cfg.fitType == FixedColumns
    ensures var p := Partition(cfg, n);
      p.(rows := cfg.rows) == cfg
      && (cfg.columns > 0 ==> p.rows * cfg.columns >= n && (p.rows - 1) * cfg.columns < n)
      && (cfg.columns == 0 ==> p == cfg)
  {
  }

  /** A FixedRows group keeps its rows and fit flags; with a positive row count it takes the
      fewest columns that hold the children, and with no rows nothing changes. */
  lemma FixedRowsPartition(cfg: GridConfig, n: nat)
    requires cfg.fitType == FixedRows
    ensures var p := Partition(cfg, n);
      p.(columns := cfg.columns) == cfg
      && (cfg.rows > 0 ==> p.columns * cfg.rows >= n && (p.columns - 1) * cfg.rows < n)
      && (cfg.rows == 0 ==> p == cfg)
  {
  }

  /** Whenever the fit type derives the partition from a usable count, the grid has room for
      every active child. */
  lemma PartitionCovers(cfg: GridConfig, n: nat)
    requires SquareFit(cfg.fitType) || (ColumnsGiven(cfg.fitType) && cfg.columns > 0)
             || (RowsGiven(cfg.fitType) && cfg.rows > 0)
    ensures var p := Partition(cfg, n);
      p.rows >= 0 && p.columns >= 0 && p.rows * p.columns >= n
  {
    var sq := SquareStep(cfg, n);
    var bc := ColumnsStep(sq, n);
    if ColumnsGiven(cfg.fitType) && sq.columns != 0 {
      assert bc.rows * bc.columns >= n;
    }
  }

  /** A FixedColumns group given as many columns as it has active children lays them out in
      a single row. */
  lemma OneRowForAll(cfg: GridConfig, n: nat)
    requires cfg.fitType == FixedColumns && cfg.columns == n && n > 0
    ensures Partition(cfg, n).rows == 1 && Partition(cfg, n).columns == n
  {
    FixedColumnsPartition(cfg, n);
    var q := Partition(cfg, n).rows;
    if q >= 2 {
      assert false;
    } else if q <= 0 {
      assert false;
    }
  }

  /** After the pass a laid-out child has the cell width unless the width axis is unique, and
      every child keeps its active flag; children past n are untouched. */
  lemma ArrangedWidth(cs: seq<ChildRect>, n: nat, cfg: GridConfig, pad: Padding, i: nat)
    requires n <= |cs| && i < |cs|
    ensures var a := Arrange(cs, n, cfg, pad);
      a[i].active == cs[i].active
      && a[i].width == (if i < n && !cfg.uniqueX then cfg.cellSize.x else cs[i].width)
      && (i < n && cfg.uniqueX ==> a[i].x == OffsetX(cs, i, cfg, pad))
      && (i >= n ==> a[i] == cs[i])
  {
  }

  /** The same on the height axis: a laid-out child has the cell height unless the height axis
      is unique, in which case it keeps its own height. */
  lemma ArrangedHeight(cs: seq<ChildRect>, n: nat, cfg: GridConfig, pad: Padding, i: nat)
    requires n <= |cs| && i < |cs|
    ensures var a := Arrange(cs, n, cfg, pad);
      a[i].active == cs[i].active
      && a[i].height == (if i < n && !cfg.uniqueY then cfg.cellSize.y else cs[i].height)
      && (i < n && cfg.uniqueY ==> a[i].y == OffsetY(cs, i, cfg, pad))
      && (i >= n ==> a[i] == cs[i])
  {
  }

  /** Each laid-out index is row * columns + column with the column inside the row. */
  lemma IndexDecomposition(i: nat, columns: int)
    requires columns != 0
    ensures i == RowOf(i, columns) * columns + ColumnOf(i, columns)
    ensures ColumnOf(i, columns) < Abs(columns)
  {
  }

  /** In a grid with room for n children every index below n lands in an existing row. */
  lemma IndexInGrid(i: nat, n: nat, rows: int, columns: int)
    requires columns > 0 && rows * columns >= n && i < n
    ensures 0 <= RowOf(i, columns) < rows && ColumnOf(i, columns) < columns
  {
    var r := RowOf(i, columns);
    assert r * columns <= i;
    assert r * columns < rows * columns;
  }

  /** Distinct laid-out indices get distinct cells. */
  lemma DistinctCells(i: nat, j: nat, columns: int)
    requires columns != 0 && i != j
    ensures RowOf(i, columns) != RowOf(j, columns) || ColumnOf(i, columns) != ColumnOf(j, columns)
  {
    IndexDecomposition(i, columns);
    IndexDecomposition(j, columns);
  }

  // ---------------------------------------------------------------------------------------
  // What the cell size and the positions promise

  /** With paddings that the column count divides, fitted columns fill the parent exactly:
      the right edge of the last column plus the right padding is the parent width. */
  lemma FittedColumnsFillWidth(p: GridConfig, parentWidth: real, parentHeight: real, pad: Padding)
    requires p.columns > 0 && p.fitX
    requires pad.left % p.columns == 0 && pad.right % p.columns == 0
    ensures var q := p.(cellSize := CellSizeFor(p, parentWidth, parentHeight, pad));
      GridX(q, p.columns - 1, pad) + q.cellSize.x + pad.right as real == parentWidth
  {
    var c := p.columns;
    var w := CellSizeFor(p, parentWidth, parentHeight, pad).x;
    var s := p.spacing.x;
    var shares := TruncDiv(pad.left, c) + TruncDiv(pad.right, c);
    TruncDivExact(pad.left, c);
    TruncDivExact(pad.right, c);
    assert c as real * shares as real == pad.left as real + pad.right as real;
    assert c as real * w + (c - 1) as real * s + pad.left as real + pad.right as real == parentWidth;
    assert (c - 1) as real * w + w == c as real * w;
  }

  /** The whole-unit share of the padding lets fitted columns overrun the parent: three columns
      of a 100-wide parent with one unit of padding on each side end two units past its edge. */
  lemma FittedColumnsCanOverrun()
    ensures var pad := Padding(1, 1, 0, 0);
      3.0 * FitWidth(100.0, 3, 0.0, pad) + pad.left as real + pad.right as real == 102.0
  {
    assert TruncDiv(1, 3) == 0;
  }

  /** On a uniform axis consecutive columns are one cell plus one gap apart, so with a
      non-negative cell size and gap two columns never overlap. */
  lemma GridColumnsDisjoint(cfg: GridConfig, c: nat, d: nat, pad: Padding)
    requires c < d && cfg.cellSize.x >= 0.0 && cfg.spacing.x >= 0.0
    ensures GridX(cfg, c, pad) + cfg.cellSize.x <= GridX(cfg, d, pad)
  {
    var step := cfg.cellSize.x + cfg.spacing.x;
    assert GridX(cfg, d, pad) - GridX(cfg, c, pad) == (d - c) as real * step;
    assert (d - c) as real * step >= step;
  }

  /** On a unique axis each child ends before any later child starts, as long as widths,
      the gap and the left padding are not negative. */
  lemma {:induction false} PackedDisjoint(cs: seq<ChildRect>, i: nat, j: nat, cfg: GridConfig, pad: Padding)
    requires i < j <= |cs|
    requires cfg.spacing.x >= 0.0 && pad.left >= 0
    requires forall k :: i < k < j ==> cs[k].width >= 0.0
    ensures OffsetX(cs, i, cfg, pad) + cs[i].width <= OffsetX(cs, j, cfg, pad)
  {
    var col := ColumnOf(j - 1, cfg.columns);
    assert cfg.spacing.x * col as real >= 0.0;
    if j > i + 1 {
      PackedDisjoint(cs, i, j - 1, cfg, pad);
    }
  }

  /** With non-negative widths, gap and left padding the running x offset never goes below 0. */
  lemma {:induction false} OffsetXNonNegative(cs: seq<ChildRect>, i: nat, cfg: GridConfig, pad: Padding)
    requires i <= |cs|
    requires cfg.spacing.x >= 0.0 && pad.left >= 0
    requires forall k :: 0 <= k < i ==> cs[k].width >= 0.0
    ensures OffsetX(cs, i, cfg, pad) >= 0.0
  {
    if i > 0 {
      OffsetXNonNegative(cs, i - 1, cfg, pad);
      assert cfg.spacing.x * ColumnOf(i - 1, cfg.columns) as real >= 0.0;
    }
  }

  /** The same for the running y offset, given a non-negative column count (so rows are too). */
  lemma {:induction false} OffsetYNonNegative(cs: seq<ChildRect>, i: nat, cfg: GridConfig, pad: Padding)
    requires i <= |cs|
    requires cfg.spacing.y >= 0.0 && pad.top >= 0 && cfg.columns >= 0
    requires forall k :: 0 <= k < i ==> cs[k].height >= 0.0
    ensures OffsetY(cs, i, cfg, pad) >= 0.0
  {
    if i > 0 {
      OffsetYNonNegative(cs, i - 1, cfg, pad);
      assert cfg.spacing.y * RowOf(i - 1, cfg.columns) as real >= 0.0;
    }
  }

  // ---------------------------------------------------------------------------------------
  // Child lookup (GridLayout.childRectransform)

  datatype Option<T> = None | Some(value: T)

  /** The list index that `childRectransform(x, y)` reads, or None where it logs and returns null.
      The four non-negative branches of the source each agree with x * columns + y. */
  function ChildIndex(x: int, y: int, columns: int): (r: Option<int>)
    ensures r == None <==> x < 0 || y < 0
    ensures r != None ==> r == Some(x * columns + y)
  {
    if y > 0 && x > 0 then Some(x * columns + y)
    else if y > 0 && x == 0 then Some(y)
    else if y == 0 && x > 0 then Some(x * columns)
    else if y == 0 && x == 0 then Some(0)
    else None
  }


  // ---------------------------------------------------------------------------------------
  // The layout group as an object

  class GridLayout {
    var rows: int
    var columns: int
    var fitType: FitType
    var fitX: bool
    var fitY: bool
    var uniqueX: bool
    var uniqueY: bool
    var cellSize: Vec2
    var spacing: Vec2
    /** The host-populated child list, in sibling order. */
    const children: array<ChildRect>

    /** The group's settings as one value. */
    function Config(): GridConfig
      reads this
    {
      GridConfig(fitType, rows, columns, fitX, fitY, uniqueX, uniqueY, cellSize, spacing)
    }

    constructor (cfg: GridConfig, children: array<ChildRect>)
      ensures Config() == cfg && this.children == children
    {
      rows, columns, fitType := cfg.rows, cfg.columns, cfg.fitType;
      fitX, fitY, uniqueX, uniqueY := cfg.fitX, cfg.fitY, cfg.uniqueX, cfg.uniqueY;
      cellSize, spacing := cfg.cellSize, cfg.spacing;
      this.children := children;
    }

    /** `enableChild`: how many entries of the child list are active. */
    method EnableChild() returns (n: nat)
      ensures n == ActiveCount(children[..])
      ensures n <= children.Length
    {
      n := 0;
      var i := 0;
      while i < children.Length
        invariant 0 <= i <= children.Length
        invariant n == ActiveCount(children[..i])
      {
        assert children[..i + 1][..i] == children[..i];
        if children[i].active {
          n := n + 1;
        }
        i := i + 1;
      }
      assert children[..i] == children[..];
    }

    /** `childRectransform(x, y)`: the child at x * columns + y, or None (the logged null)
        when either coordinate is negative. The list index must be in range. */
    function ChildRectransform(x: int, y: int): (r: Option<ChildRect>)
      reads this, children
      requires x < 0 || y < 0 || 0 <= x * columns + y < children.Length
      ensures r == None <==> x < 0 || y < 0
      ensures r != None ==> r == Some(children[x * columns + y])
    {
      match ChildIndex(x, y, columns)
      case None => None
      case Some(k) => Some(children[k])
    }

    /** `CalculateLayoutInputHorizontal`: derive the partition and the cell size from the
        active-child count and the parent rect, then place the first that many children. */
    method CalculateLayoutInputHorizontal(parentWidth: real, parentHeight: real, pad: Padding)
      modifies this, children
      ensures Config() == Reconfigure(old(Config()), ActiveCount(old(children[..])),
                                      parentWidth, parentHeight, pad)
      ensures children[..] == Arrange(old(children[..]), ActiveCount(old(children[..])), Config(), pad)
    {
      PartitionAndSize(parentWidth, parentHeight, pad);
      PlaceChildren(pad);
    }

    /** The first half of the pass: rows, columns, fit flags and cell size. */
    method PartitionAndSize(parentWidth: real, parentHeight: real, pad: Padding)
      modifies this
      ensures Config() == Reconfigure(old(Config()), ActiveCount(children[..]),
                                      parentWidth, parentHeight, pad)
    {
      DerivePartition();
      SizeCells(parentWidth, parentHeight, pad);
    }

    /** Rows and columns from the fit type and the active count (source lines 96-119). */
    method DerivePartition()
      modifies this
      ensures Config() == Partition(old(Config()), ActiveCount(children[..]))
    {
      ghost var n := ActiveCount(children[..]);
      ghost var start := Config();
      if fitType == Width || fitType == Height || fitType == Uniform {
        fitX := true;
        fitY := true;
        var active := EnableChild();
        rows := CeilSqrt(active);
        columns := CeilSqrt(active);
      }
      assert Config() == SquareStep(start, n);
      ghost var square := Config();
      if fitType == Width || fitType == FixedColumns {
        if columns != 0 {
          var active := EnableChild();
          rows := CeilDiv(active, columns);
        }
      }
      assert Config() == ColumnsStep(square, n);
      ghost var byColumns := Config();
      if fitType == Height || fitType == FixedRows {
        if rows != 0 {
          var active := EnableChild();
          columns := CeilDiv(active, rows);
        }
      }
      assert Config() == RowsStep(byColumns, n);
    }

    /** The cell size from the partition and the parent rect, stored back (lines 120-134). */
    method SizeCells(parentWidth: real, parentHeight: real, pad: Padding)
      modifies this`cellSize
      ensures Config() == old(Config()).(cellSize := CellSizeFor(old(Config()), parentWidth, parentHeight, pad))
    {
      var cellWidth := 0.0;
      var cellHeight := 0.0;
      if columns != 0 {
        cellWidth := if fitX then FitWidth(parentWidth, columns, spacing.x, pad) else cellSize.x;
      }
      if rows != 0 {
        cellHeight := if fitY then FitHeight(parentHeight, rows, spacing.y, pad) else cellSize.y;
      }
      cellSize := Vec2(cellWidth, cellHeight);
    }

    /** One step of the loop: both axes of child i, by the grid formula or at the running offset,
        returning the offsets for the next child. */
    method PlaceChild(i: nat, xPos: real, yPos: real, rowCount: int, columnCount: int, pad: Padding)
      returns (nextX: real, nextY: real)
      requires i < children.Length
      modifies children
      ensures children[..] == old(children[..])[i := PlaceAt(old(children[i]), Config(), rowCount, columnCount, xPos, yPos, pad)]
      ensures uniqueX ==> nextX == AdvanceX(xPos, old(children[i]).width, Config(), columnCount, pad)
      ensures uniqueY ==> nextY == AdvanceY(yPos, old(children[i]).height, Config(), rowCount, pad)
    {
      nextX, nextY := xPos, yPos;
      if !uniqueX {
        nextX := GridX(Config(), columnCount, pad);
      }
      if !uniqueY {
        nextY := GridY(Config(), rowCount, pad);
      }
      var item := children[i];
      if !uniqueX {
        item := item.(x := nextX, width := cellSize.x);
      } else {
        item := item.(x := nextX);
        nextX := AdvanceX(nextX, item.width, Config(), columnCount, pad);
      }
      if !uniqueY {
        item := item.(y := nextY, height := cellSize.y);
      } else {
        item := item.(y := nextY);
        nextY := AdvanceY(nextY, item.height, Config(), rowCount, pad);
      }
      children[i] := item;
    }

    /** The second half of the pass: the loop over the first `enableChild()` entries, which
        re-evaluates the count on every test and does not look at the active flags itself. */
    method PlaceChildren(pad: Padding)
      modifies children
      ensures children[..] == Arrange(old(children[..]), ActiveCount(old(children[..])), Config(), pad)
    {
      ghost var before := children[..];
      ghost var count := ActiveCount(before);
      ghost var cfg := Config();
      var xPos := 0.0;
      var yPos := 0.0;
      var rowCount := 0;
      var columnCount := 0;
      var i := 0;
      var n := EnableChild();
      while i < n
        invariant n == count && 0 <= i <= n <= children.Length
        invariant children[..] == Arrange(before, i, cfg, pad)
        invariant uniqueX ==> xPos == OffsetX(before, i, cfg, pad)
        invariant uniqueY ==> yPos == OffsetY(before, i, cfg, pad)
        invariant columns == 0 ==> rowCount == 0 && columnCount == 0
      {
        if columns != 0 {
          rowCount := i / columns;
          columnCount := i % columns;
        }
        PlaceNext(before, i, cfg, pad, rowCount, columnCount, xPos, yPos);
        xPos, yPos := PlaceChild(i, xPos, yPos, rowCount, columnCount, pad);
        i := i + 1;
        n := EnableChild();
      }
    }
  }
}
