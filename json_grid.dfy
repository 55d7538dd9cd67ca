/** The grid controller: it holds a parsed table (headers and data rows), builds one vertical
    group per column under a horizontal group and one text cell per table entry, and on every
    frame compares its exposed knobs with the shadow copies of the values last applied,
    running the handler of each knob that changed. The layout passes of the horizontal group
    and of each vertical group are the one of module Layout. */
module JsonGrid {
  import opened Layout

  /** The most data rows and columns a request may leave in the exposed counters. */
  const MaxShownRows := 20
  const MaxShownColumns := 15

  /** The width and the height modes have the same four cases. */
  datatype SizeMode = Homogeneous | Fix | BestFit | Empty

  /** One set of the controller's knobs: either the exposed ones (Spacing, FetchColumns,
      FetchRows, HeightMode, WidthMode, FixedHeight, FixedWidth) or their shadow copies
      (_Spacing, _showingColumns, _showingRows, _heightMode, _widthMode, _fixedHeight, _fixedWidth). */
  datatype Settings = Settings(
    spacing: Vec2,
    fetchColumns: int,
    fetchRows: int,
    heightMode: SizeMode,
    widthMode: SizeMode,
    fixedHeight: real,
    fixedWidth: real)

  /** A text element: its rect as a child of its vertical group, and the text it shows. */
  datatype Cell = Cell(rect: ChildRect, text: string)

  /** A vertical group: its rect as a child of the horizontal group, and its own settings. */
  datatype VerticalGroup = VerticalGroup(rect: ChildRect, config: GridConfig)

  /** What the engine supplies: the horizontal group's rect size and padding, the padding of
      every vertical group (they are all copies of one prefab), and the three prefabs. */
  datatype Scene = Scene(
    width: real,
    height: real,
    padding: Padding,
    groupPadding: Padding,
    verticalPrefab: VerticalGroup,
    headerPrefab: ChildRect,
    dataPrefab: ChildRect)

  /** Everything the controller changes. `cellsInGroups` says whether the text cells are the
      children of the vertical groups (cell (i, j) the i-th child of group j): true once
      `CreateTextElements` has run, false while the groups are freshly instantiated. */
  datatype GridState = GridState(
    exposed: Settings,
    applied: Settings,
    headers: seq<string>,
    data: seq<seq<string>>,
    horizontal: GridConfig,
    groups: seq<VerticalGroup>,
    textGrid: seq<seq<Cell>>,
    avgWords: seq<int>,
    avgRows: seq<real>,
    cellsInGroups: bool)

  /** The vertical groups with the text cells; `linked` says whether the cells are the groups'
      children, cell (i, j) the i-th child of group j. */
  datatype Tree = Tree(groups: seq<VerticalGroup>, textGrid: seq<seq<Cell>>, linked: bool)

  function TreeOf(st: GridState): Tree
  {
    Tree(st.groups, st.textGrid, st.cellsInGroups)
  }

  /** When the text cells are the groups' children, every text row has one cell per group. */
  predicate Fits(t: Tree)
  {
    t.linked ==> forall i :: 0 <= i < |t.textGrid| ==> |t.textGrid[i]| == |t.groups|
  }

  predicate CellsFit(st: GridState)
  {
    Fits(TreeOf(st))
  }

  /** One average per vertical group and one per text row, and the cells fit the groups. */
  predicate WellFormed(st: GridState)
  {
    |st.avgWords| == |st.groups| && |st.avgRows| == |st.textGrid| && CellsFit(st)
  }

  /** The same number of groups, the same shape of text grid and the same link. */
  predicate Similar(a: Tree, b: Tree)
  {
    a.linked == b.linked && |a.groups| == |b.groups|
    && |a.textGrid| == |b.textGrid| && forall i :: 0 <= i < |a.textGrid| ==> |a.textGrid[i]| == |b.textGrid[i]|
  }

  /** A handler keeps the table, the averages, the number of groups, the shape of the text grid
      and whether the cells are the groups' children. */
  predicate SameShape(a: GridState, b: GridState)
  {
    a.headers == b.headers && a.data == b.data && a.avgWords == b.avgWords && a.avgRows == b.avgRows
    && Similar(TreeOf(a), TreeOf(b))
  }

  /** The same text cells with the same texts and active flags: only positions and sizes differ. */
  predicate CellsKept(a: seq<seq<Cell>>, b: seq<seq<Cell>>)
  {
    |a| == |b| && (forall i :: 0 <= i < |a| ==> |a[i]| == |b[i]|)
    && forall i, m :: 0 <= i < |a| && 0 <= m < |a[i]| ==>
         b[i][m].text == a[i][m].text && b[i][m].rect.active == a[i][m].rect.active
  }

  lemma CellsKeptTransitive(a: seq<seq<Cell>>, b: seq<seq<Cell>>, c: seq<seq<Cell>>)
    requires CellsKept(a, b) && CellsKept(b, c)
    ensures CellsKept(a, c)
  {
  }

  /** Every data row has an entry for every header. */
  predicate Rectangular(headers: seq<string>, data: seq<seq<string>>)
  {
    forall i :: 0 <= i < |data| ==> |data[i]| >= |headers|
  }

  // ---------------------------------------------------------------------------------------
  // The horizontal group's layout pass

  function Rects(gs: seq<VerticalGroup>): (rs: seq<ChildRect>)
    ensures |rs| == |gs|
  {
    seq(|gs|, j requires 0 <= j < |gs| => gs[j].rect)
  }

  /** The horizontal group's `CalculateLayoutInputHorizontal` over the vertical groups as its
      children: the partition and cell size from the active groups, then their rects. */
  function HorizontalPass(st: GridState, sc: Scene): (r: GridState)
    ensures |r.groups| == |st.groups|
    ensures forall j :: 0 <= j < |st.groups| ==>
              r.groups[j].config == st.groups[j].config && r.groups[j].rect.active == st.groups[j].rect.active
    ensures r.(horizontal := st.horizontal, groups := st.groups) == st
  {
    var rs := Rects(st.groups);
    var n := ActiveCount(rs);
    var h := Reconfigure(st.horizontal, n, sc.width, sc.height, sc.padding);
    var placed := Arrange(rs, n, h, sc.padding);
    st.(horizontal := h,
        groups := seq(|st.groups|, j requires 0 <= j < |st.groups| => st.groups[j].(rect := placed[j])))
  }

  // ---------------------------------------------------------------------------------------
  // Clamps

  /** A requested count capped at `cap`, then at `available`, then raised to 0. */
  function ClampCount(request: int, cap: int, available: int): (r: int)
    ensures r >= 0
    ensures r == 0 || (r <= request && r <= cap && r <= available)
    ensures cap >= 0 && available >= 0 ==>
              r <= cap && r <= available && (r == request <==> 0 <= request <= cap && request <= available)
  {
    var capped := if request > cap then cap else request;
    var limited := if capped > available then available else capped;
    if limited < 0 then 0 else limited
  }

  /** Clamping a clamped count changes nothing, so a handler fed its own output stops. */
  lemma ClampCountIdempotent(request: int, cap: int, available: int)
    requires cap >= 0 && available >= 0
    ensures ClampCount(ClampCount(request, cap, available), cap, available) == ClampCount(request, cap, available)
  {
  }

  /** The exposed spacing with a negative horizontal gap raised to 0. */
  function ClampSpacing(s: Vec2): (r: Vec2)
    ensures r.y == s.y && r.x >= 0.0
    ensures r == s <==> s.x >= 0.0
  {
    if s.x < 0.0 then s.(x := 0.0) else s
  }

  // ---------------------------------------------------------------------------------------
  // Best-fit sizes

  /** A best-fit column width: 20 units per average character plus 50, at most 350. */
  function BestFitWidth(avg: int): (w: real)
    ensures w <= 350.0 && w <= (avg * 20 + 50) as real
    ensures w == 350.0 || w == (avg * 20 + 50) as real
  {
    var v := (avg * 20 + 50) as real;
    if v < 350.0 then v else 350.0
  }

  /** A best-fit row height: 13 units per average character, at most 200. */
  function BestFitHeight(avg: real): (h: real)
    ensures h <= 200.0 && h <= avg * 13.0
    ensures h == 200.0 || h == avg * 13.0
  {
    var v := avg * 13.0;
    if v < 200.0 then v else 200.0
  }

  /** Both best-fit sizes grow with the average they are given. */
  lemma BestFitMonotone(a: int, b: int, x: real, y: real)
    requires a <= b && x <= y
    ensures BestFitWidth(a) <= BestFitWidth(b)
    ensures BestFitHeight(x) <= BestFitHeight(y)
  {
  }

  // ---------------------------------------------------------------------------------------
  // Averages

  /** The total text length of a row of cells. */
  function TextLength(cells: seq<Cell>): (t: nat)
    ensures cells == [] ==> t == 0
  {
    if cells == [] then 0 else TextLength(cells[..|cells| - 1]) + |cells[|cells| - 1].text|
  }

  /** The longest text in a row of cells. */
  function Longest(cells: seq<Cell>): (m: nat)
    ensures forall k :: 0 <= k < |cells| ==> |cells[k].text| <= m
    ensures cells == [] ==> m == 0
    ensures cells != [] ==> exists k :: 0 <= k < |cells| && |cells[k].text| == m
  {
    if cells == [] then 0
    else
      var rest := Longest(cells[..|cells| - 1]);
      var last := |cells[|cells| - 1].text|;
      assert forall k :: 0 <= k < |cells| - 1 ==> cells[k] == cells[..|cells| - 1][k];
      if last > rest then last else rest
  }

  /** `GetAvgLengthRow`: the mean text length of a row, 0 for an empty row. */
  function AvgRow(cells: seq<Cell>): real
  {
    if |cells| == 0 then 0.0 else TextLength(cells) as real / |cells| as real
  }

  /** The row total is at most the row length times its longest text. */
  lemma {:induction false} TextLengthBound(cells: seq<Cell>, m: nat)
    requires forall k :: 0 <= k < |cells| ==> |cells[k].text| <= m
    ensures TextLength(cells) <= |cells| * m
  {
    if cells != [] {
      var init := cells[..|cells| - 1];
      assert forall k :: 0 <= k < |init| ==> init[k] == cells[k];
      TextLengthBound(init, m);
    }
  }

  /** A row's mean lies between 0 and its longest text. */
  lemma AvgRowBounds(cells: seq<Cell>)
    ensures 0.0 <= AvgRow(cells) <= Longest(cells) as real
  {
    if |cells| > 0 {
      var m := Longest(cells);
      TextLengthBound(cells, m);
      RealQuotientBound(TextLength(cells), |cells|, m);
    }
  }

  /** A whole total at most n * m, divided by n > 0 in the reals, is at most m. */
  lemma RealQuotientBound(t: nat, n: nat, m: nat)
    requires n > 0 && t <= n * m
    ensures 0.0 <= t as real / n as real <= m as real
  {
    var nr := n as real;
    assert t as real <= (n * m) as real == nr * m as real;
    assert t as real / nr <= (nr * m as real) / nr == m as real;
  }

  /** Whole-unit division by d of a total at most d * b is at most b. */
  lemma QuotientBound(total: nat, d: nat, b: nat)
    requires d > 0 && total <= d * b
    ensures total / d <= b
  {
    var q := total / d;
    assert q * d <= total;
    if q > b {
      MultiplyMonotone(b + 1, q, d);
      assert false;
    }
  }

  lemma MultiplyMonotone(a: nat, b: nat, d: nat)
    requires a <= b
    ensures a * d <= b * d
  {
  }

  /** The total length of column `col` over the first m data rows. */
  function ColumnLength(data: seq<seq<string>>, col: nat, m: nat): nat
    requires m <= |data| && forall i :: 0 <= i < m ==> col < |data[i]|
  {
    if m == 0 then 0 else ColumnLength(data, col, m - 1) + |data[m - 1][col]|
  }

  /** `GetAVGLenghtWords(col)` when the text grid has `textRows` rows: the header and the first
      textRows - 1 data entries of the column, summed and divided by textRows in whole units;
      just the header's length when there are no text rows yet. */
  function AvgLengthWords(headers: seq<string>, data: seq<seq<string>>, col: nat, textRows: nat): int
    requires Rectangular(headers, data) && col < |headers| && textRows <= |data| + 1
  {
    if textRows == 0 then |headers[col]|
    else (|headers[col]| + ColumnLength(data, col, textRows - 1)) / textRows
  }

  /** The column total over m rows is at most m times a bound on every entry. */
  lemma {:induction false} ColumnLengthBound(data: seq<seq<string>>, col: nat, m: nat, bound: nat)
    requires m <= |data| && forall i :: 0 <= i < m ==> col < |data[i]| && |data[i][col]| <= bound
    ensures ColumnLength(data, col, m) <= m * bound
  {
    if m > 0 {
      ColumnLengthBound(data, col, m - 1, bound);
    }
  }

  /** A column's average is never longer than the longest entry it averages. */
  lemma AvgLengthWordsBound(headers: seq<string>, data: seq<seq<string>>, col: nat, textRows: nat, bound: nat)
    requires Rectangular(headers, data) && col < |headers| && textRows <= |data| + 1
    requires |headers[col]| <= bound
    requires forall i :: 0 <= i < textRows - 1 ==> |data[i][col]| <= bound
    ensures 0 <= AvgLengthWords(headers, data, col, textRows) <= bound
  {
    if textRows > 0 {
      var m := textRows - 1;
      var total := |headers[col]| + ColumnLength(data, col, m);
      ColumnLengthBound(data, col, m, bound);
      assert m * bound + bound == textRows * bound;
      QuotientBound(total, textRows, bound);
    }
  }

  // ---------------------------------------------------------------------------------------
  // Edits applied to every vertical group by a handler's loop

  /** What a handler's loop over the vertical groups does to group j. */
  datatype GroupEdit =
    | Respace(spacingY: real)          // AdjustRowSpacing: FitY off, Spacing.y from the knob
    | FitColumns(fitX: bool)           // SetHomogeneousColumnWidth: FitX
    | FitRows(fitY: bool)              // SetHomogeneousRowHeight: FitY
    | ClearUniqueY                     // SetHomogeneousRowHeight, SetFixedValues: UniqueY off
    | SetUniqueY                       // BestFitRowsHeight: UniqueY on
    | Show(shown: int)                 // ReAdjustShowingColumns: active iff j < shown
    | BestFitColumn(avgWords: seq<int>) // BestFitColumnWidth: rect size from the column's average
    | Keep                             // SetFixedValues: only the group's own pass

  function Edit(g: VerticalGroup, e: GroupEdit, j: nat): VerticalGroup
    requires e.BestFitColumn? ==> j < |e.avgWords|
  {
    match e
    case Respace(y) => g.(config := g.config.(fitY := false, spacing := Vec2(g.config.spacing.x, y)))
    case FitColumns(v) => g.(config := g.config.(fitX := v))
    case FitRows(v) => g.(config := g.config.(fitY := v))
    case ClearUniqueY => g.(config := g.config.(uniqueY := false))
    case SetUniqueY => g.(config := g.config.(uniqueY := true))
    case Show(s) => g.(rect := g.rect.(active := j < s))
    case BestFitColumn(avgs) =>
      g.(rect := g.rect.(width := BestFitWidth(avgs[j]), height := g.config.cellSize.y))
    case Keep => g
  }

  /** The groups after the loop has visited the first n of them. */
  function EditGroups(gs: seq<VerticalGroup>, e: GroupEdit, n: nat): (r: seq<VerticalGroup>)
    requires n <= |gs| && (e.BestFitColumn? ==> |e.avgWords| >= |gs|)
    ensures |r| == |gs|
  {
    seq(|gs|, j requires 0 <= j < |gs| => if j < n then Edit(gs[j], e, j) else gs[j])
  }

  /** The showing loop leaves exactly the first `shown` groups active. */
  lemma ShownGroupsCount(gs: seq<VerticalGroup>, shown: int)
    requires 0 <= shown <= |gs|
    ensures forall j :: 0 <= j < |gs| ==> (EditGroups(gs, Show(shown), |gs|)[j].rect.active <==> j < shown)
    ensures ActiveCount(Rects(EditGroups(gs, Show(shown), |gs|))) == shown
  {
    var rs := Rects(EditGroups(gs, Show(shown), |gs|));
    assert forall j :: 0 <= j < |rs| ==> (rs[j].active <==> j < shown);
    ActivePrefixCount(rs, shown);
  }

  /** A child list whose active entries are exactly its first k has k active children. */
  lemma {:induction false} ActivePrefixCount(rs: seq<ChildRect>, k: nat)
    requires k <= |rs|
    requires forall j :: 0 <= j < |rs| ==> (rs[j].active <==> j < k)
    ensures ActiveCount(rs) == k
  {
    if |rs| > k {
      var init := rs[..|rs| - 1];
      assert forall j :: 0 <= j < |init| ==> init[j] == rs[j];
      ActivePrefixCount(init, k);
    } else if k > 0 {
      assert ActiveCount(rs) == |rs|;
    }
  }

  // ---------------------------------------------------------------------------------------
  // The vertical groups' own layout passes

  /** The rects of column j of the text grid. */
  function ColumnRects(g: seq<seq<Cell>>, j: nat): (rs: seq<ChildRect>)
    requires forall i :: 0 <= i < |g| ==> j < |g[i]|
    ensures |rs| == |g|
  {
    seq(|g|, i requires 0 <= i < |g| => g[i][j].rect)
  }

  /** The text grid with the rects of column j replaced. */
  function WithColumn(g: seq<seq<Cell>>, j: nat, rs: seq<ChildRect>): (r: seq<seq<Cell>>)
    requires (forall i :: 0 <= i < |g| ==> j < |g[i]|) && |rs| == |g|
    ensures |r| == |g| && forall i :: 0 <= i < |g| ==> |r[i]| == |g[i]|
  {
    seq(|g|, i requires 0 <= i < |g| => g[i][j := g[i][j].(rect := rs[i])])
  }

  /** The child list of vertical group j: its column of text cells, header first, or nothing
      while the groups are fresh. */
  function Children(t: Tree, j: nat): (rs: seq<ChildRect>)
    requires Fits(t) && j < |t.groups|
    ensures |rs| == if t.linked then |t.textGrid| else 0
  {
    if t.linked then ColumnRects(t.textGrid, j) else []
  }

  /** Two trees with the same text grid give every group the same child list. */
  lemma SameChildren(a: Tree, b: Tree, j: nat)
    requires Fits(a) && j < |a.groups| && |b.groups| == |a.groups|
    requires b.textGrid == a.textGrid && b.linked == a.linked
    ensures Fits(b) && Children(b, j) == Children(a, j)
  {
  }

  /** The settings group g computes in its own pass over the child list `kids`, with its own
      rect as the parent. */
  function GroupPassed(g: VerticalGroup, kids: seq<ChildRect>, sc: Scene): (r: VerticalGroup)
    ensures r.rect == g.rect
    ensures r.config == Reconfigure(g.config, ActiveCount(kids), g.rect.width, g.rect.height, sc.groupPadding)
  {
    g.(config := Reconfigure(g.config, ActiveCount(kids), g.rect.width, g.rect.height, sc.groupPadding))
  }

  /** Group j's `CalculateLayoutInputHorizontal`: its settings reconfigured over its active
      children, and its column of text cells placed. */
  function VerticalPass(t: Tree, j: nat, sc: Scene): (r: Tree)
    requires Fits(t) && j < |t.groups|
    ensures |r.groups| == |t.groups| && r.linked == t.linked && |r.textGrid| == |t.textGrid| && Fits(r)
    ensures r.groups == t.groups[j := GroupPassed(t.groups[j], Children(t, j), sc)]
    ensures !t.linked ==> r.textGrid == t.textGrid
  {
    var g := GroupPassed(t.groups[j], Children(t, j), sc);
    var kids := Children(t, j);
    t.(groups := t.groups[j := g],
       textGrid := if t.linked
                   then WithColumn(t.textGrid, j, Arrange(kids, ActiveCount(kids), g.config, sc.groupPadding))
                   else t.textGrid)
  }

  /** Group j's pass places its own column and leaves every other group's child list alone. */
  lemma VerticalPassColumns(t: Tree, j: nat, sc: Scene)
    requires Fits(t) && j < |t.groups|
    ensures var r := VerticalPass(t, j, sc);
      Children(r, j) == Arrange(Children(t, j), ActiveCount(Children(t, j)), r.groups[j].config, sc.groupPadding)
      && forall m :: 0 <= m < |t.groups| && m != j ==> Children(r, m) == Children(t, m)
  {
    var r := VerticalPass(t, j, sc);
    if t.linked {
      forall m | 0 <= m < |t.groups| && m != j
        ensures Children(r, m) == Children(t, m)
      {
        assert forall i :: 0 <= i < |t.textGrid| ==> Children(r, m)[i] == Children(t, m)[i];
      }
    }
  }

  /** Group j's pass moves only the cells of column j. */
  lemma VerticalPassCell(t: Tree, j: nat, sc: Scene, i: nat, m: nat)
    requires Fits(t) && j < |t.groups| && i < |t.textGrid| && m < |t.textGrid[i]|
    ensures var r := VerticalPass(t, j, sc);
      var kids := Children(t, j);
      |r.textGrid[i]| == |t.textGrid[i]|
      && r.textGrid[i][m] == if t.linked && m == j
                             then t.textGrid[i][m].(rect := Arrange(kids, ActiveCount(kids), r.groups[j].config, sc.groupPadding)[i])
                             else t.textGrid[i][m]
  {
  }

  /** A pass changes only positions and sizes: every text cell keeps its text and active flag. */
  lemma VerticalPassKeepsCells(t: Tree, j: nat, sc: Scene)
    requires Fits(t) && j < |t.groups|
    ensures CellsKept(t.textGrid, VerticalPass(t, j, sc).textGrid)
  {
    if t.linked {
      var kids := Children(t, j);
      var g := VerticalPass(t, j, sc).groups[j];
      ArrangeKeepsActive(kids, ActiveCount(kids), g.config, sc.groupPadding);
    }
  }

  /** One turn of a handler's loop: edit group j, then run group j's pass. */
  function PassStep(t: Tree, e: GroupEdit, j: nat, sc: Scene): (r: Tree)
    requires Fits(t) && j < |t.groups| && (e.BestFitColumn? ==> |e.avgWords| >= |t.groups|)
    ensures |r.groups| == |t.groups| && r.linked == t.linked && |r.textGrid| == |t.textGrid| && Fits(r)
    ensures forall m :: 0 <= m < |t.groups| && m != j ==> r.groups[m] == t.groups[m]
  {
    VerticalPass(t.(groups := t.groups[j := Edit(t.groups[j], e, j)]), j, sc)
  }

  /** Group j after the loop's turn for it: edited, then reconfigured over its active children. */
  function PassedGroup(t: Tree, e: GroupEdit, j: nat, sc: Scene): (g: VerticalGroup)
    requires Fits(t) && j < |t.groups| && (e.BestFitColumn? ==> |e.avgWords| >= |t.groups|)
    ensures g.rect == Edit(t.groups[j], e, j).rect
  {
    GroupPassed(Edit(t.groups[j], e, j), Children(t, j), sc)
  }

  /** Column j after the loop's turn for group j: its cells placed by the group's new settings
      over its active children. */
  function PlacedColumn(t: Tree, e: GroupEdit, j: nat, sc: Scene): (rs: seq<ChildRect>)
    requires Fits(t) && j < |t.groups| && (e.BestFitColumn? ==> |e.avgWords| >= |t.groups|)
    ensures |rs| == |Children(t, j)|
  {
    var kids := Children(t, j);
    Arrange(kids, ActiveCount(kids), PassedGroup(t, e, j, sc).config, sc.groupPadding)
  }

  /** Text row i once the loop has run its turns for groups 0 .. k - 1. */
  function SweptRow(t: Tree, e: GroupEdit, k: nat, sc: Scene, i: nat): (row: seq<Cell>)
    requires Fits(t) && t.linked && k <= |t.groups| && (e.BestFitColumn? ==> |e.avgWords| >= |t.groups|)
    requires i < |t.textGrid|
    ensures |row| == |t.groups|
  {
    seq(|t.groups|, j requires 0 <= j < |t.groups| =>
      if j < k then t.textGrid[i][j].(rect := PlacedColumn(t, e, j, sc)[i]) else t.textGrid[i][j])
  }

  /** The tree once a handler's loop, which edits group j and then runs group j's pass, has run
      its turns for groups 0 .. k - 1: those groups edited and reconfigured and their columns
      placed, every other group and column as it was. */
  function Swept(t: Tree, e: GroupEdit, k: nat, sc: Scene): (r: Tree)
    requires Fits(t) && k <= |t.groups| && (e.BestFitColumn? ==> |e.avgWords| >= |t.groups|)
    ensures |r.groups| == |t.groups| && r.linked == t.linked && |r.textGrid| == |t.textGrid| && Fits(r)
    ensures !t.linked ==> r.textGrid == t.textGrid
  {
    var gs := seq(|t.groups|, j requires 0 <= j < |t.groups| => if j < k then PassedGroup(t, e, j, sc) else t.groups[j]);
    if t.linked
    then Tree(gs, seq(|t.textGrid|, i requires 0 <= i < |t.textGrid| => SweptRow(t, e, k, sc, i)), true)
    else Tree(gs, t.textGrid, false)
  }

  /** What the loop leaves in group j and its column of text cells: when visited, the group
      edited and reconfigured and the column placed; otherwise both untouched. */
  lemma SweptGroup(t: Tree, e: GroupEdit, k: nat, sc: Scene, j: nat)
    requires Fits(t) && k <= |t.groups| && (e.BestFitColumn? ==> |e.avgWords| >= |t.groups|)
    requires j < |t.groups|
    ensures var r := Swept(t, e, k, sc);
      r.groups[j] == (if j < k then PassedGroup(t, e, j, sc) else t.groups[j])
      && Children(r, j) == if j < k then PlacedColumn(t, e, j, sc) else Children(t, j)
  {
    var r := Swept(t, e, k, sc);
    if t.linked {
      assert forall i :: 0 <= i < |t.textGrid| ==>
        Children(r, j)[i] == (if j < k then PlacedColumn(t, e, j, sc) else Children(t, j))[i];
    }
  }

  /** The loop keeps every text cell's text and active flag. */
  lemma SweptKeepsCells(t: Tree, e: GroupEdit, k: nat, sc: Scene)
    requires Fits(t) && k <= |t.groups| && (e.BestFitColumn? ==> |e.avgWords| >= |t.groups|)
    ensures CellsKept(t.textGrid, Swept(t, e, k, sc).textGrid)
  {
    if t.linked {
      forall i, m | 0 <= i < |t.textGrid| && 0 <= m < k
        ensures PlacedColumn(t, e, m, sc)[i].active == t.textGrid[i][m].rect.active
      {
        var kids := Children(t, m);
        ArrangedWidth(kids, ActiveCount(kids), PassedGroup(t, e, m, sc).config, sc.groupPadding, i);
      }
    }
  }

  /** Before its first turn the loop has changed nothing. */
  lemma SweptNone(t: Tree, e: GroupEdit, sc: Scene)
    requires Fits(t) && (e.BestFitColumn? ==> |e.avgWords| >= |t.groups|)
    ensures Swept(t, e, 0, sc) == t
  {
    var r := Swept(t, e, 0, sc);
    assert r.groups == t.groups;
    if t.linked {
      forall i | 0 <= i < |t.textGrid|
        ensures r.textGrid[i] == t.textGrid[i]
      {
      }
    }
  }

  /** The loop's turn for group k extends the sweep by one group. */
  lemma SweptStep(t: Tree, e: GroupEdit, k: nat, sc: Scene)
    requires Fits(t) && k < |t.groups| && (e.BestFitColumn? ==> |e.avgWords| >= |t.groups|)
    ensures PassStep(Swept(t, e, k, sc), e, k, sc) == Swept(t, e, k + 1, sc)
  {
    var s, w := Swept(t, e, k, sc), Swept(t, e, k + 1, sc);
    var s1 := s.(groups := s.groups[k := Edit(s.groups[k], e, k)]);
    SweptGroup(t, e, k, sc, k);
    SameChildren(s, s1, k);
    var r := VerticalPass(s1, k, sc);
    assert r.groups == w.groups;
    if t.linked {
      forall i | 0 <= i < |t.textGrid|
        ensures r.textGrid[i] == w.textGrid[i]
      {
        forall m | 0 <= m < |t.groups|
          ensures r.textGrid[i][m] == w.textGrid[i][m]
        {
          SweptStepCell(t, e, k, sc, i, m);
        }
      }
    }
  }

  /** The turn for group k places the cells of column k and leaves every other cell alone. */
  lemma SweptStepCell(t: Tree, e: GroupEdit, k: nat, sc: Scene, i: nat, m: nat)
    requires Fits(t) && t.linked && k < |t.groups| && (e.BestFitColumn? ==> |e.avgWords| >= |t.groups|)
    requires i < |t.textGrid| && m < |t.groups|
    ensures var s := Swept(t, e, k, sc);
      var s1 := s.(groups := s.groups[k := Edit(s.groups[k], e, k)]);
      Fits(s1) && VerticalPass(s1, k, sc).textGrid[i][m] == Swept(t, e, k + 1, sc).textGrid[i][m]
  {
    var s := Swept(t, e, k, sc);
    var s1 := s.(groups := s.groups[k := Edit(s.groups[k], e, k)]);
    SweptGroup(t, e, k, sc, k);
    SameChildren(s, s1, k);
    VerticalPassCell(s1, k, sc, i, m);
    if m == k {
      var kids := Children(s1, k);
      var r := VerticalPass(s1, k, sc);
      assert r.groups[k] == PassedGroup(t, e, k, sc);
      assert Arrange(kids, ActiveCount(kids), r.groups[k].config, sc.groupPadding) == PlacedColumn(t, e, k, sc);
    }
  }

  // ---------------------------------------------------------------------------------------
  // Text rows

  /** What a handler's loop over a row of text cells does to each cell. */
  datatype CellEdit =
    | Activate(on: bool)                // ReAdjustShowingRows: SetActive
    | Resize(width: real, height: real) // BestFitRowsHeight: sizeDelta

  function EditCell(c: Cell, e: CellEdit): Cell
  {
    match e
    case Activate(on) => c.(rect := c.rect.(active := on))
    case Resize(w, h) => c.(rect := c.rect.(width := w, height := h))
  }

  /** Every cell of a row edited. */
  function EditRow(row: seq<Cell>, e: CellEdit): (r: seq<Cell>)
    ensures |r| == |row|
  {
    seq(|row|, k requires 0 <= k < |row| => EditCell(row[k], e))
  }

  /** The text grid after the showing loop has visited rows 1 .. n - 1: row i is shown iff
      i <= shown; the header row is never visited. */
  function ShowRows(g: seq<seq<Cell>>, shown: int, n: nat): (r: seq<seq<Cell>>)
    requires n <= |g|
    ensures |r| == |g| && forall i :: 0 <= i < |g| ==> |r[i]| == |g[i]|
  {
    seq(|g|, i requires 0 <= i < |g| => if 1 <= i < n then EditRow(g[i], Activate(i <= shown)) else g[i])
  }

  /** After the full loop a data cell is active exactly when its row is at most `shown`; the
      header row, the texts and every other part of the rects are kept. */
  lemma ShownRows(g: seq<seq<Cell>>, shown: int)
    ensures var r := ShowRows(g, shown, |g|);
      (|g| > 0 ==> r[0] == g[0])
      && forall i, k :: 1 <= i < |g| && 0 <= k < |g[i]| ==>
           |r[i]| == |g[i]| && (r[i][k].rect.active <==> i <= shown)
           && r[i][k].text == g[i][k].text && r[i][k].rect.(active := g[i][k].rect.active) == g[i][k].rect
  {
  }

  /** The text grid after the best-fit loop has resized rows 1 .. n - 1: width w, and the row's
      best-fit height from its average. */
  function SizedRows(g: seq<seq<Cell>>, w: real, avgRows: seq<real>, n: nat): (r: seq<seq<Cell>>)
    requires n <= |g| <= |avgRows|
    ensures CellsKept(g, r)
  {
    seq(|g|, i requires 0 <= i < |g| => if 1 <= i < n then EditRow(g[i], Resize(w, BestFitHeight(avgRows[i]))) else g[i])
  }

  /** After best-fit resizing every data cell has the given width and a height of at most 200. */
  lemma SizedRowsHeights(g: seq<seq<Cell>>, w: real, avgRows: seq<real>)
    requires |g| <= |avgRows|
    ensures var r := SizedRows(g, w, avgRows, |g|);
      (|g| > 0 ==> r[0] == g[0])
      && forall i, k :: 1 <= i < |g| && 0 <= k < |g[i]| ==>
           r[i][k].rect.width == w && r[i][k].rect.height == BestFitHeight(avgRows[i])
           && r[i][k].rect.height <= 200.0 && r[i][k].text == g[i][k].text
  {
  }

  /** Text cell (i, j): the header prefab with header j in row 0, the data prefab with
      data[i - 1][j] below. */
  function TextCell(headers: seq<string>, data: seq<seq<string>>, i: nat, j: nat, sc: Scene): Cell
    requires Rectangular(headers, data) && i <= |data| && j < |headers|
  {
    if i == 0 then Cell(sc.headerPrefab, headers[j]) else Cell(sc.dataPrefab, data[i - 1][j])
  }

  function TextRow(headers: seq<string>, data: seq<seq<string>>, i: nat, columns: nat, sc: Scene): (r: seq<Cell>)
    requires Rectangular(headers, data) && i <= |data| && columns <= |headers|
    ensures |r| == columns
  {
    seq(columns, j requires 0 <= j < columns => TextCell(headers, data, i, j, sc))
  }

  /** The first `count` rows `CreateTextElements` builds. */
  function TextRows(headers: seq<string>, data: seq<seq<string>>, count: nat, columns: nat, sc: Scene)
    : (r: seq<seq<Cell>>)
    requires Rectangular(headers, data) && count <= |data| + 1 && columns <= |headers|
    ensures |r| == count
  {
    seq(count, i requires 0 <= i < count => TextRow(headers, data, i, columns, sc))
  }

  /** The built text grid holds the headers in row 0 and data row i - 1 in row i. */
  lemma TextRowsContents(headers: seq<string>, data: seq<seq<string>>, columns: nat, sc: Scene)
    requires Rectangular(headers, data) && columns <= |headers|
    ensures var g := TextRows(headers, data, |data| + 1, columns, sc);
      |g| == |data| + 1
      && (forall i :: 0 <= i < |g| ==> |g[i]| == columns)
      && (forall j :: 0 <= j < columns ==> g[0][j].text == headers[j] && g[0][j].rect == sc.headerPrefab)
      && (forall i, j :: 1 <= i < |g| && 0 <= j < columns ==>
            g[i][j].text == data[i - 1][j] && g[i][j].rect == sc.dataPrefab)
  {
  }

  /** One row average per built row. */
  function RowAverages(g: seq<seq<Cell>>): (r: seq<real>)
    ensures |r| == |g|
  {
    seq(|g|, i requires 0 <= i < |g| => AvgRow(g[i]))
  }

  // ---------------------------------------------------------------------------------------
  // The handlers as functions of the state

  /** `AdjustRowSpacing`: record the knob, respace each vertical group and run its pass, clamp
      the knob's gap, copy it into the horizontal group and lay it out. */
  function SpacingAdjusted(st: GridState, sc: Scene): (r: GridState)
    requires CellsFit(st)
    ensures SameShape(st, r)
    ensures r.applied == st.applied.(spacing := st.exposed.spacing)
    ensures r.exposed == st.exposed.(spacing := ClampSpacing(st.exposed.spacing))
    ensures CellsKept(st.textGrid, r.textGrid)
    ensures !st.cellsInGroups ==> r.textGrid == st.textGrid
  {
    var s := st.exposed.spacing;
    var t := Swept(TreeOf(st), Respace(s.y), |st.groups|, sc);
    var clamped := ClampSpacing(s);
    SweptKeepsCells(TreeOf(st), Respace(s.y), |st.groups|, sc);
    HorizontalPass(
      st.(applied := st.applied.(spacing := s), groups := t.groups, textGrid := t.textGrid,
          exposed := st.exposed.(spacing := clamped),
          horizontal := st.horizontal.(spacing := Vec2(clamped.x, st.horizontal.spacing.y))),
      sc)
  }

  /** `ReAdjustShowingColumns`: record the request, give it unclamped to the horizontal group,
      clamp the knob, and when the request is a valid count show the first that many groups
      and lay out the horizontal group. */
  function ColumnsReadjusted(st: GridState, sc: Scene): (r: GridState)
    ensures SameShape(st, r)
    ensures r.applied == st.applied.(fetchColumns := st.exposed.fetchColumns)
    ensures r.exposed == st.exposed.(fetchColumns := ClampCount(st.exposed.fetchColumns, MaxShownColumns, |st.groups|))
    ensures r.textGrid == st.textGrid
  {
    var s := st.exposed.fetchColumns;
    var n := |st.groups|;
    var st1 := st.(applied := st.applied.(fetchColumns := s),
                   horizontal := st.horizontal.(columns := s),
                   exposed := st.exposed.(fetchColumns := ClampCount(s, MaxShownColumns, n)));
    if 0 <= s <= n then HorizontalPass(st1.(groups := EditGroups(st1.groups, Show(s), n)), sc) else st1
  }

  /** `ReAdjustShowingRows`: record the request, give it unclamped to the horizontal group,
      clamp the knob, and when the request is a valid count show rows 1 .. request. */
  function RowsReadjusted(st: GridState): (r: GridState)
    ensures SameShape(st, r)
    ensures r.applied == st.applied.(fetchRows := st.exposed.fetchRows)
    ensures r.exposed == st.exposed.(fetchRows := ClampCount(st.exposed.fetchRows, MaxShownRows, |st.textGrid|))
  {
    var s := st.exposed.fetchRows;
    var n := |st.textGrid|;
    st.(applied := st.applied.(fetchRows := s),
        horizontal := st.horizontal.(rows := s),
        exposed := st.exposed.(fetchRows := ClampCount(s, MaxShownRows, n)),
        textGrid := if 0 <= s <= n then ShowRows(st.textGrid, s, n) else st.textGrid)
  }

  /** `SetHomogeneousColumnWidth(v)`: no unique widths, FixedWidth takes the current cell width,
      every group and the horizontal group get FitX = v, then the horizontal pass. */
  function HomogeneousWidth(st: GridState, v: bool, sc: Scene): (r: GridState)
    ensures SameShape(st, r)
    ensures r.applied == st.applied
    ensures r.exposed == st.exposed.(fixedWidth := st.horizontal.cellSize.x)
    ensures r.textGrid == st.textGrid
  {
    HorizontalPass(
      st.(horizontal := st.horizontal.(uniqueX := false, fitX := v),
          exposed := st.exposed.(fixedWidth := st.horizontal.cellSize.x),
          groups := EditGroups(st.groups, FitColumns(v), |st.groups|)),
      sc)
  }

  /** `SetHomogeneousRowHeight(v)`: no unique heights in the groups, the horizontal group's
      UniqueX (not UniqueY) off, FixedHeight takes the current cell height, FitY = v in each
      group followed by its pass, FitY = v in the horizontal group, then the horizontal pass. */
  function HomogeneousHeight(st: GridState, v: bool, sc: Scene): (r: GridState)
    requires CellsFit(st)
    ensures SameShape(st, r)
    ensures r.applied == st.applied
    ensures r.exposed == st.exposed.(fixedHeight := st.horizontal.cellSize.y)
    ensures CellsKept(st.textGrid, r.textGrid)
    ensures !st.cellsInGroups ==> r.textGrid == st.textGrid
  {
    var n := |st.groups|;
    var cleared := Tree(EditGroups(st.groups, ClearUniqueY, n), st.textGrid, st.cellsInGroups);
    var t := Swept(cleared, FitRows(v), n, sc);
    SweptKeepsCells(cleared, FitRows(v), n, sc);
    HorizontalPass(
      st.(groups := t.groups, textGrid := t.textGrid,
          horizontal := st.horizontal.(uniqueX := false, fitY := v),
          exposed := st.exposed.(fixedHeight := st.horizontal.cellSize.y)),
      sc)
  }

  /** The horizontal settings `SetFixedValues` writes before its layout pass. */
  function FixedSettings(h: GridConfig, e: Settings): (r: GridConfig)
    ensures r.(uniqueX := h.uniqueX, fitX := h.fitX, fitY := h.fitY, cellSize := h.cellSize) == h
    ensures !r.uniqueX
    ensures e.heightMode == Fix ==> !r.fitY && r.cellSize.y == e.fixedHeight && r.fitX == (e.widthMode != Fix)
    ensures e.widthMode == Fix ==> !r.fitX && r.cellSize.x == e.fixedWidth && r.fitY == (e.heightMode != Fix)
    ensures e.heightMode == Fix && e.widthMode != Fix ==> r.cellSize.x == h.cellSize.x
    ensures e.widthMode == Fix && e.heightMode != Fix ==> r.cellSize.y == h.cellSize.y
    ensures e.heightMode != Fix && e.widthMode != Fix ==> r == h.(uniqueX := false)
  {
    var u := h.(uniqueX := false);
    if e.heightMode == Fix then
      if e.widthMode == Fix then u.(fitY := false, fitX := false, cellSize := Vec2(e.fixedWidth, e.fixedHeight))
      else u.(fitY := false, fitX := true, cellSize := Vec2(u.cellSize.x, e.fixedHeight))
    else if e.widthMode == Fix then u.(fitX := false, fitY := true, cellSize := Vec2(e.fixedWidth, u.cellSize.y))
    else u
  }

  /** `SetFixedValues`: no unique heights in the groups, the fixed sizes into the horizontal
      group's settings, each group's pass when the height mode is Fix, then the horizontal pass. */
  function FixedApplied(st: GridState, sc: Scene): (r: GridState)
    requires CellsFit(st)
    ensures SameShape(st, r)
    ensures r.applied == st.applied && r.exposed == st.exposed
    ensures CellsKept(st.textGrid, r.textGrid)
    ensures !st.cellsInGroups || st.exposed.heightMode != Fix ==> r.textGrid == st.textGrid
  {
    var cleared := Tree(EditGroups(st.groups, ClearUniqueY, |st.groups|), st.textGrid, st.cellsInGroups);
    var t := if st.exposed.heightMode == Fix then Swept(cleared, Keep, |st.groups|, sc) else cleared;
    SweptKeepsCells(cleared, Keep, |st.groups|, sc);
    HorizontalPass(
      st.(groups := t.groups, textGrid := t.textGrid, horizontal := FixedSettings(st.horizontal, st.exposed)),
      sc)
  }

  /** `BestFitColumnWidth`: unique, unfitted widths in the horizontal group; each group's rect
      sized from its column's average and its own cell height, followed by its pass; then the
      horizontal pass. */
  function BestFitWidths(st: GridState, sc: Scene): (r: GridState)
    requires WellFormed(st)
    ensures SameShape(st, r)
    ensures r.applied == st.applied && r.exposed == st.exposed
    ensures CellsKept(st.textGrid, r.textGrid)
    ensures !st.cellsInGroups ==> r.textGrid == st.textGrid
  {
    var t := Swept(TreeOf(st), BestFitColumn(st.avgWords), |st.groups|, sc);
    SweptKeepsCells(TreeOf(st), BestFitColumn(st.avgWords), |st.groups|, sc);
    HorizontalPass(
      st.(horizontal := st.horizontal.(fitX := false, uniqueX := true), groups := t.groups, textGrid := t.textGrid),
      sc)
  }

  /** One turn of `BestFitRowsHeight`'s group loop, for group j: the group gets unique heights;
      when `sizing` (the shown-row count is valid) every data cell is resized to the group's
      cell width and its row's best-fit height; then the group runs its pass. */
  function RowsTurn(s: Tree, avgRows: seq<real>, sizing: bool, j: nat, sc: Scene): (r: Tree)
    requires Fits(s) && |avgRows| == |s.textGrid| && j < |s.groups|
    ensures |r.groups| == |s.groups| && r.linked == s.linked && |r.textGrid| == |s.textGrid| && Fits(r)
    ensures forall m :: 0 <= m < |s.groups| && m != j ==> r.groups[m] == s.groups[m]
    ensures r.groups[j].config.uniqueY
  {
    VerticalPass(TurnInput(s, avgRows, sizing, j), j, sc)
  }

  /** What group j's pass finds in its turn: the group with unique heights and, when `sizing`,
      every data cell resized to the group's cell width and its row's best-fit height. */
  function TurnInput(s: Tree, avgRows: seq<real>, sizing: bool, j: nat): (r: Tree)
    requires Fits(s) && |avgRows| == |s.textGrid| && j < |s.groups|
    ensures |r.groups| == |s.groups| && r.linked == s.linked && Fits(r)
    ensures r.groups == s.groups[j := Edit(s.groups[j], SetUniqueY, j)]
    ensures CellsKept(s.textGrid, r.textGrid)
    ensures !sizing ==> r.textGrid == s.textGrid
  {
    var s1 := s.(groups := s.groups[j := Edit(s.groups[j], SetUniqueY, j)]);
    if sizing
    then s1.(textGrid := SizedRows(s1.textGrid, s1.groups[j].config.cellSize.x, avgRows, |s1.textGrid|))
    else s1
  }

  /** A text cell after the resizing in group j's turn, with w group j's cell width: with
      sizing, a data cell gets width w and its row's best-fit height; the header row is left
      alone. */
  function Resized(c: Cell, avgRows: seq<real>, sizing: bool, i: nat, w: real): (r: Cell)
    requires i < |avgRows|
    ensures r.text == c.text && r.rect.active == c.rect.active
    ensures sizing && 1 <= i ==> r.rect.width == w && r.rect.height == BestFitHeight(avgRows[i])
  {
    if sizing && 1 <= i then EditCell(c, Resize(w, BestFitHeight(avgRows[i]))) else c
  }

  /** Column m as the turn for group m finds it: resized to group m's cell width, not yet
      placed. */
  function TurnColumn(t: Tree, avgRows: seq<real>, sizing: bool, m: nat): (rs: seq<ChildRect>)
    requires Fits(t) && |avgRows| == |t.textGrid| && m < |t.groups|
    ensures |rs| == |Children(t, m)|
  {
    if t.linked
    then seq(|t.textGrid|, i requires 0 <= i < |t.textGrid| =>
           Resized(t.textGrid[i][m], avgRows, sizing, i, t.groups[m].config.cellSize.x).rect)
    else []
  }

  /** Group m after its turn: unique heights, then reconfigured over its active children. */
  function RowsGroup(t: Tree, avgRows: seq<real>, sizing: bool, m: nat, sc: Scene): (g: VerticalGroup)
    requires Fits(t) && |avgRows| == |t.textGrid| && m < |t.groups|
    ensures g.config.uniqueY
  {
    GroupPassed(Edit(t.groups[m], SetUniqueY, m), TurnColumn(t, avgRows, sizing, m), sc)
  }

  /** Column m after its turn: placed by group m's new settings. */
  function RowsPlaced(t: Tree, avgRows: seq<real>, sizing: bool, m: nat, sc: Scene): (rs: seq<ChildRect>)
    requires Fits(t) && |avgRows| == |t.textGrid| && m < |t.groups|
    ensures |rs| == |Children(t, m)|
  {
    var kids := TurnColumn(t, avgRows, sizing, m);
    Arrange(kids, ActiveCount(kids), RowsGroup(t, avgRows, sizing, m, sc).config, sc.groupPadding)
  }

  /** Text cell (i, m) once the loop has run its turns for groups 0 .. k - 1: placed by its own
      group's turn if that has come, then resized by the latest turn, unless the latest turn
      was its own group's, which resized it before placing it. */
  function RowsCell(t: Tree, avgRows: seq<real>, sizing: bool, k: nat, sc: Scene, i: nat, m: nat): Cell
    requires Fits(t) && |avgRows| == |t.textGrid| && k <= |t.groups|
    requires i < |t.textGrid| && m < |t.textGrid[i]|
  {
    var c := t.textGrid[i][m];
    var placed := if t.linked && m < k then c.(rect := RowsPlaced(t, avgRows, sizing, m, sc)[i]) else c;
    if k > 0 && !(t.linked && m == k - 1)
    then Resized(placed, avgRows, sizing, i, t.groups[k - 1].config.cellSize.x)
    else placed
  }

  /** The tree once `BestFitRowsHeight`'s group loop has run its turns for groups 0 .. k - 1. */
  function RowsSwept(t: Tree, avgRows: seq<real>, sizing: bool, k: nat, sc: Scene): (r: Tree)
    requires Fits(t) && |avgRows| == |t.textGrid| && k <= |t.groups|
    ensures |r.groups| == |t.groups| && r.linked == t.linked && |r.textGrid| == |t.textGrid| && Fits(r)
    ensures forall i :: 0 <= i < |t.textGrid| ==> |r.textGrid[i]| == |t.textGrid[i]|
  {
    Tree(seq(|t.groups|, j requires 0 <= j < |t.groups| => if j < k then RowsGroup(t, avgRows, sizing, j, sc) else t.groups[j]),
         seq(|t.textGrid|, i requires 0 <= i < |t.textGrid| =>
           seq(|t.textGrid[i]|, m requires 0 <= m < |t.textGrid[i]| => RowsCell(t, avgRows, sizing, k, sc, i, m))),
         t.linked)
  }

  /** Before its first turn the loop has changed nothing. */
  lemma RowsSweptNone(t: Tree, avgRows: seq<real>, sizing: bool, sc: Scene)
    requires Fits(t) && |avgRows| == |t.textGrid|
    ensures RowsSwept(t, avgRows, sizing, 0, sc) == t
  {
    var r := RowsSwept(t, avgRows, sizing, 0, sc);
    assert r.groups == t.groups;
    forall i | 0 <= i < |t.textGrid|
      ensures r.textGrid[i] == t.textGrid[i]
    {
    }
  }

  /** The turn for group k finds column k as `TurnColumn` describes it. */
  lemma RowsTurnFinds(t: Tree, avgRows: seq<real>, sizing: bool, k: nat, sc: Scene)
    requires Fits(t) && |avgRows| == |t.textGrid| && k < |t.groups|
    ensures var s := RowsSwept(t, avgRows, sizing, k, sc);
      var s2 := TurnInput(s, avgRows, sizing, k);
      s.groups[k] == t.groups[k] && Fits(s2) && Children(s2, k) == TurnColumn(t, avgRows, sizing, k)
  {
    var s := RowsSwept(t, avgRows, sizing, k, sc);
    var s2 := TurnInput(s, avgRows, sizing, k);
    if t.linked {
      forall i | 0 <= i < |t.textGrid|
        ensures Children(s2, k)[i] == TurnColumn(t, avgRows, sizing, k)[i]
      {
        RowsTurnFindsCell(t, avgRows, sizing, k, sc, i);
      }
    }
  }

  /** The turn for group k finds cell (i, k) resized to group k's cell width only. */
  lemma RowsTurnFindsCell(t: Tree, avgRows: seq<real>, sizing: bool, k: nat, sc: Scene, i: nat)
    requires Fits(t) && |avgRows| == |t.textGrid| && k < |t.groups| && t.linked && i < |t.textGrid|
    ensures var s2 := TurnInput(RowsSwept(t, avgRows, sizing, k, sc), avgRows, sizing, k);
      Children(s2, k)[i] == TurnColumn(t, avgRows, sizing, k)[i]
  {
    var c, w := t.textGrid[i][k], t.groups[k].config.cellSize.x;
    RowsTurnResizes(t, avgRows, sizing, k, sc, i, k);
    assert TurnColumn(t, avgRows, sizing, k)[i] == Resized(c, avgRows, sizing, i, w).rect;
    if k > 0 {
      ResizedTwice(c, avgRows, sizing, i, t.groups[k - 1].config.cellSize.x, w);
    }
  }

  /** A cell whose group's turn has not come yet carries only the latest turn's resizing. */
  lemma RowsAhead(t: Tree, avgRows: seq<real>, sizing: bool, k: nat, sc: Scene, i: nat, m: nat)
    requires Fits(t) && |avgRows| == |t.textGrid| && k <= |t.groups|
    requires i < |t.textGrid| && k <= m < |t.textGrid[i]|
    ensures RowsSwept(t, avgRows, sizing, k, sc).textGrid[i][m]
            == if k > 0 then Resized(t.textGrid[i][m], avgRows, sizing, i, t.groups[k - 1].config.cellSize.x)
               else t.textGrid[i][m]
  {
  }

  /** The turn for group k extends the sweep by one group. */
  lemma RowsSweptStep(t: Tree, avgRows: seq<real>, sizing: bool, k: nat, sc: Scene)
    requires Fits(t) && |avgRows| == |t.textGrid| && k < |t.groups|
    ensures RowsTurn(RowsSwept(t, avgRows, sizing, k, sc), avgRows, sizing, k, sc)
            == RowsSwept(t, avgRows, sizing, k + 1, sc)
  {
    var s, w := RowsSwept(t, avgRows, sizing, k, sc), RowsSwept(t, avgRows, sizing, k + 1, sc);
    var s2 := TurnInput(s, avgRows, sizing, k);
    RowsTurnFinds(t, avgRows, sizing, k, sc);
    var r := VerticalPass(s2, k, sc);
    assert r.groups == w.groups;
    forall i | 0 <= i < |t.textGrid|
      ensures r.textGrid[i] == w.textGrid[i]
    {
      forall m | 0 <= m < |t.textGrid[i]|
        ensures r.textGrid[i][m] == w.textGrid[i][m]
      {
        RowsStepCell(t, avgRows, sizing, k, sc, i, m);
      }
    }
  }

  /** The turn for group k takes each text cell to its place in the sweep one group further. */
  lemma RowsStepCell(t: Tree, avgRows: seq<real>, sizing: bool, k: nat, sc: Scene, i: nat, m: nat)
    requires Fits(t) && |avgRows| == |t.textGrid| && k < |t.groups|
    requires i < |t.textGrid| && m < |t.textGrid[i]|
    ensures var s := RowsSwept(t, avgRows, sizing, k, sc);
      var s2 := TurnInput(s, avgRows, sizing, k);
      Fits(s2) && VerticalPass(s2, k, sc).textGrid[i][m] == RowsSwept(t, avgRows, sizing, k + 1, sc).textGrid[i][m]
  {
    if t.linked && m == k {
      RowsStepOwn(t, avgRows, sizing, k, sc, i, m);
    } else {
      RowsStepOther(t, avgRows, sizing, k, sc, i, m);
    }
  }

  /** Group k's own cells are placed by its turn. */
  lemma RowsStepOwn(t: Tree, avgRows: seq<real>, sizing: bool, k: nat, sc: Scene, i: nat, m: nat)
    requires Fits(t) && |avgRows| == |t.textGrid| && k < |t.groups|
    requires i < |t.textGrid| && m < |t.textGrid[i]|
    requires t.linked && m == k
    ensures var s := RowsSwept(t, avgRows, sizing, k, sc);
      var s2 := TurnInput(s, avgRows, sizing, k);
      Fits(s2) && VerticalPass(s2, k, sc).textGrid[i][m] == RowsSwept(t, avgRows, sizing, k + 1, sc).textGrid[i][m]
  {
    var s := RowsSwept(t, avgRows, sizing, k, sc);
    var s2 := TurnInput(s, avgRows, sizing, k);
    RowsTurnFinds(t, avgRows, sizing, k, sc);
    VerticalPassCell(s2, k, sc, i, m);
    RowsAhead(t, avgRows, sizing, k, sc, i, m);
  }

  /** Every other cell only takes the turn's resizing. */
  lemma RowsStepOther(t: Tree, avgRows: seq<real>, sizing: bool, k: nat, sc: Scene, i: nat, m: nat)
    requires Fits(t) && |avgRows| == |t.textGrid| && k < |t.groups|
    requires i < |t.textGrid| && m < |t.textGrid[i]|
    requires !(t.linked && m == k)
    ensures var s := RowsSwept(t, avgRows, sizing, k, sc);
      var s2 := TurnInput(s, avgRows, sizing, k);
      Fits(s2) && VerticalPass(s2, k, sc).textGrid[i][m] == RowsSwept(t, avgRows, sizing, k + 1, sc).textGrid[i][m]
  {
    var s := RowsSwept(t, avgRows, sizing, k, sc);
    var s2 := TurnInput(s, avgRows, sizing, k);
    RowsTurnFinds(t, avgRows, sizing, k, sc);
    VerticalPassCell(s2, k, sc, i, m);
    RowsTurnResizes(t, avgRows, sizing, k, sc, i, m);
    RowsCellNext(t, avgRows, sizing, k, sc, i, m);
  }

  /** The turn for group k resizes each text cell to group k's cell width before the pass. */
  lemma RowsTurnResizes(t: Tree, avgRows: seq<real>, sizing: bool, k: nat, sc: Scene, i: nat, m: nat)
    requires Fits(t) && |avgRows| == |t.textGrid| && k < |t.groups|
    requires i < |t.textGrid| && m < |t.textGrid[i]|
    ensures var s := RowsSwept(t, avgRows, sizing, k, sc);
      var s2 := TurnInput(s, avgRows, sizing, k);
      s2.textGrid[i][m] == Resized(RowsCell(t, avgRows, sizing, k, sc, i, m), avgRows, sizing, i, t.groups[k].config.cellSize.x)
  {
    var s := RowsSwept(t, avgRows, sizing, k, sc);
    assert s.groups[k] == t.groups[k];
    assert s.textGrid[i][m] == RowsCell(t, avgRows, sizing, k, sc, i, m);
  }

  /** Outside column k, a cell one turn further is the cell after k turns, resized to group
      k's cell width. */
  lemma RowsCellNext(t: Tree, avgRows: seq<real>, sizing: bool, k: nat, sc: Scene, i: nat, m: nat)
    requires Fits(t) && |avgRows| == |t.textGrid| && k < |t.groups|
    requires i < |t.textGrid| && m < |t.textGrid[i]|
    requires !(t.linked && m == k)
    ensures RowsSwept(t, avgRows, sizing, k + 1, sc).textGrid[i][m]
            == Resized(RowsCell(t, avgRows, sizing, k, sc, i, m), avgRows, sizing, i, t.groups[k].config.cellSize.x)
  {
    var c := RowsCell(t, avgRows, sizing, k, sc, i, m);
    var cell := t.textGrid[i][m];
    var placed := if t.linked && m < k then cell.(rect := RowsPlaced(t, avgRows, sizing, m, sc)[i]) else cell;
    assert RowsCell(t, avgRows, sizing, k + 1, sc, i, m) == Resized(placed, avgRows, sizing, i, t.groups[k].config.cellSize.x);
    if k > 0 && !(t.linked && m == k - 1) {
      ResizedTwice(placed, avgRows, sizing, i, t.groups[k - 1].config.cellSize.x, t.groups[k].config.cellSize.x);
    }
  }

  /** A second resizing overrides the first. */
  lemma ResizedTwice(c: Cell, avgRows: seq<real>, sizing: bool, i: nat, w1: real, w2: real)
    requires i < |avgRows|
    ensures Resized(Resized(c, avgRows, sizing, i, w1), avgRows, sizing, i, w2) == Resized(c, avgRows, sizing, i, w2)
  {
  }

  /** The loop keeps every text cell's text and active flag. */
  lemma RowsSweptKeepsCells(t: Tree, avgRows: seq<real>, sizing: bool, k: nat, sc: Scene)
    requires Fits(t) && |avgRows| == |t.textGrid| && k <= |t.groups|
    ensures CellsKept(t.textGrid, RowsSwept(t, avgRows, sizing, k, sc).textGrid)
  {
    if t.linked {
      forall i, m | 0 <= i < |t.textGrid| && 0 <= m < k
        ensures RowsPlaced(t, avgRows, sizing, m, sc)[i].active == t.textGrid[i][m].rect.active
      {
        var kids := TurnColumn(t, avgRows, sizing, m);
        ArrangedWidth(kids, ActiveCount(kids), RowsGroup(t, avgRows, sizing, m, sc).config, sc.groupPadding, i);
      }
    }
  }

  /** Without resizing and while the groups are fresh, the loop leaves the text cells alone. */
  lemma RowsSweptUnlinked(t: Tree, avgRows: seq<real>, k: nat, sc: Scene)
    requires Fits(t) && |avgRows| == |t.textGrid| && k <= |t.groups| && !t.linked
    ensures RowsSwept(t, avgRows, false, k, sc).textGrid == t.textGrid
  {
    var r := RowsSwept(t, avgRows, false, k, sc);
    forall i | 0 <= i < |t.textGrid|
      ensures r.textGrid[i] == t.textGrid[i]
    {
    }
  }

  /** The shown-row count is valid: `BestFitRowsHeight` resizes the data cells. */
  predicate RowsSizable(st: GridState)
  {
    0 <= st.applied.fetchRows <= |st.textGrid|
  }

  /** `BestFitRowsHeight`: no fitted heights in the horizontal group, the group loop, then the
      horizontal pass. */
  function BestFitHeights(st: GridState, sc: Scene): (r: GridState)
    requires WellFormed(st)
    ensures SameShape(st, r)
    ensures r.applied == st.applied && r.exposed == st.exposed
    ensures CellsKept(st.textGrid, r.textGrid)
  {
    var t := RowsSwept(TreeOf(st), st.avgRows, RowsSizable(st), |st.groups|, sc);
    RowsSweptKeepsCells(TreeOf(st), st.avgRows, RowsSizable(st), |st.groups|, sc);
    HorizontalPass(st.(horizontal := st.horizontal.(fitY := false), groups := t.groups, textGrid := t.textGrid), sc)
  }

  /** `ReSizeHeight`: record both fixed sizes and the height mode, then run the mode's handler. */
  function HeightResized(st: GridState, sc: Scene): (r: GridState)
    requires WellFormed(st)
    ensures SameShape(st, r)
    ensures r.applied == st.applied.(fixedHeight := st.exposed.fixedHeight, fixedWidth := st.exposed.fixedWidth,
                                     heightMode := st.exposed.heightMode)
    ensures r.exposed == if st.exposed.heightMode == Homogeneous
                         then st.exposed.(fixedHeight := st.horizontal.cellSize.y) else st.exposed
  {
    var e := st.exposed;
    var st1 := st.(applied := st.applied.(fixedHeight := e.fixedHeight, fixedWidth := e.fixedWidth, heightMode := e.heightMode));
    match e.heightMode
    case Homogeneous => HomogeneousHeight(st1, true, sc)
    case Fix => FixedApplied(st1, sc)
    case BestFit => BestFitHeights(st1, sc)
    case Empty => st1
  }

  /** `ReSizeWidth`: record both fixed sizes and the width mode, then run the mode's handler. */
  function WidthResized(st: GridState, sc: Scene): (r: GridState)
    requires WellFormed(st)
    ensures SameShape(st, r)
    ensures r.applied == st.applied.(fixedWidth := st.exposed.fixedWidth, fixedHeight := st.exposed.fixedHeight,
                                     widthMode := st.exposed.widthMode)
    ensures r.exposed == if st.exposed.widthMode == Homogeneous
                         then st.exposed.(fixedWidth := st.horizontal.cellSize.x) else st.exposed
  {
    var e := st.exposed;
    var st1 := st.(applied := st.applied.(fixedWidth := e.fixedWidth, fixedHeight := e.fixedHeight, widthMode := e.widthMode));
    match e.widthMode
    case Homogeneous => HomogeneousWidth(st1, true, sc)
    case Fix => FixedApplied(st1, sc)
    case BestFit => BestFitWidths(st1, sc)
    case Empty => st1
  }

  /** The spacing handler when Spacing differs from _Spacing. */
  function SpacingStep(st: GridState, sc: Scene): (r: GridState)
    requires CellsFit(st)
    ensures SameShape(st, r)
    ensures r.applied.(spacing := st.applied.spacing) == st.applied
    ensures r.exposed.(spacing := st.exposed.spacing) == st.exposed
    ensures r.exposed.spacing == r.applied.spacing || ClampSpacing(r.exposed.spacing) == r.exposed.spacing
  {
    if st.exposed.spacing != st.applied.spacing then SpacingAdjusted(st, sc) else st
  }

  /** The column handler when FetchColumns differs from _showingColumns. */
  function FetchColumnsStep(st: GridState, sc: Scene): (r: GridState)
    ensures SameShape(st, r)
    ensures r.applied.(fetchColumns := st.applied.fetchColumns) == st.applied
    ensures r.exposed.(fetchColumns := st.exposed.fetchColumns) == st.exposed
    ensures r.exposed.fetchColumns == r.applied.fetchColumns
            || ClampCount(r.exposed.fetchColumns, MaxShownColumns, |r.groups|) == r.exposed.fetchColumns
  {
    if st.exposed.fetchColumns != st.applied.fetchColumns then
      ClampCountIdempotent(st.exposed.fetchColumns, MaxShownColumns, |st.groups|);
      ColumnsReadjusted(st, sc)
    else st
  }

  /** The row handler when FetchRows differs from _showingRows. */
  function FetchRowsStep(st: GridState): (r: GridState)
    ensures SameShape(st, r)
    ensures r.applied.(fetchRows := st.applied.fetchRows) == st.applied
    ensures r.exposed.(fetchRows := st.exposed.fetchRows) == st.exposed
    ensures r.exposed.fetchRows == r.applied.fetchRows
            || ClampCount(r.exposed.fetchRows, MaxShownRows, |r.textGrid|) == r.exposed.fetchRows
  {
    if st.exposed.fetchRows != st.applied.fetchRows then
      ClampCountIdempotent(st.exposed.fetchRows, MaxShownRows, |st.textGrid|);
      RowsReadjusted(st)
    else st
  }

  /** The height handler when HeightMode differs from _heightMode. */
  function HeightModeStep(st: GridState, sc: Scene): (r: GridState)
    requires WellFormed(st)
    ensures SameShape(st, r)
    ensures r.exposed.heightMode == r.applied.heightMode
    ensures r.exposed.(fixedHeight := st.exposed.fixedHeight) == st.exposed
    ensures r.applied.(fixedHeight := st.applied.fixedHeight, fixedWidth := st.applied.fixedWidth,
                       heightMode := st.applied.heightMode) == st.applied
    ensures st.exposed.widthMode == st.applied.widthMode && (st.exposed.widthMode == Fix ==> st.exposed.fixedWidth == st.applied.fixedWidth)
            ==> r.exposed.widthMode == Fix ==> r.exposed.fixedWidth == r.applied.fixedWidth
  {
    if st.exposed.heightMode != st.applied.heightMode then HeightResized(st, sc) else st
  }

  /** The width handler when WidthMode differs from _widthMode. */
  function WidthModeStep(st: GridState, sc: Scene): (r: GridState)
    requires WellFormed(st)
    ensures SameShape(st, r)
    ensures r.exposed.widthMode == r.applied.widthMode
    ensures r.exposed.(fixedWidth := st.exposed.fixedWidth) == st.exposed
    ensures r.applied.(fixedHeight := st.applied.fixedHeight, fixedWidth := st.applied.fixedWidth,
                       widthMode := st.applied.widthMode) == st.applied
  {
    if st.exposed.widthMode != st.applied.widthMode then WidthResized(st, sc) else st
  }

  /** The height handler again when in Fix mode FixedHeight differs from _fixedHeight. */
  function FixedHeightStep(st: GridState, sc: Scene): (r: GridState)
    requires WellFormed(st)
    ensures SameShape(st, r)
    ensures r.exposed == st.exposed
    ensures r.exposed.heightMode == Fix ==> r.exposed.fixedHeight == r.applied.fixedHeight
    ensures r.applied.(fixedHeight := st.applied.fixedHeight, fixedWidth := st.applied.fixedWidth,
                       heightMode := st.applied.heightMode) == st.applied
    ensures st.exposed.heightMode == st.applied.heightMode ==> r.exposed.heightMode == r.applied.heightMode
  {
    if st.exposed.fixedHeight != st.applied.fixedHeight && st.exposed.heightMode == Fix
    then HeightResized(st, sc) else st
  }

  /** The width handler again when in Fix mode FixedWidth differs from _fixedWidth. */
  function FixedWidthStep(st: GridState, sc: Scene): (r: GridState)
    requires WellFormed(st)
    ensures SameShape(st, r)
    ensures r.exposed == st.exposed
    ensures r.exposed.widthMode == Fix ==> r.exposed.fixedWidth == r.applied.fixedWidth
    ensures r.applied.(fixedHeight := st.applied.fixedHeight, fixedWidth := st.applied.fixedWidth,
                       widthMode := st.applied.widthMode) == st.applied
    ensures st.exposed.widthMode == st.applied.widthMode ==> r.exposed.widthMode == r.applied.widthMode
    ensures r.applied.fixedHeight == (if r == st then st.applied.fixedHeight else st.exposed.fixedHeight)
  {
    if st.exposed.fixedWidth != st.applied.fixedWidth && st.exposed.widthMode == Fix
    then WidthResized(st, sc) else st
  }

  /** `LateUpdate`: each handler whose knob differs from its shadow copy, in source order; the
      fixed sizes only count in their Fix mode. */
  function Ticked(st: GridState, sc: Scene): (r: GridState)
    requires WellFormed(st)
    ensures SameShape(st, r)
  {
    var s3 := FetchRowsStep(FetchColumnsStep(SpacingStep(st, sc), sc));
    FixedWidthStep(FixedHeightStep(WidthModeStep(HeightModeStep(s3, sc), sc), sc), sc)
  }

  // ---------------------------------------------------------------------------------------
  // What a frame's dispatch promises

  /** Nothing left for `LateUpdate` to do: every knob equals its shadow copy, the fixed sizes
      only in their Fix mode. */
  predicate Settled(st: GridState)
  {
    var e, a := st.exposed, st.applied;
    e.spacing == a.spacing && e.fetchColumns == a.fetchColumns && e.fetchRows == a.fetchRows
    && e.heightMode == a.heightMode && e.widthMode == a.widthMode
    && (e.heightMode == Fix ==> e.fixedHeight == a.fixedHeight)
    && (e.widthMode == Fix ==> e.fixedWidth == a.fixedWidth)
  }

  /** The spacing and the two counts are either settled or hold a value their clamp keeps. */
  predicate CountsCalm(st: GridState)
  {
    var e, a := st.exposed, st.applied;
    (e.spacing == a.spacing || ClampSpacing(e.spacing) == e.spacing)
    && (e.fetchColumns == a.fetchColumns || ClampCount(e.fetchColumns, MaxShownColumns, |st.groups|) == e.fetchColumns)
    && (e.fetchRows == a.fetchRows || ClampCount(e.fetchRows, MaxShownRows, |st.textGrid|) == e.fetchRows)
  }

  /** The modes and fixed sizes are settled, and the counts are calm. */
  predicate Calm(st: GridState)
  {
    var e, a := st.exposed, st.applied;
    CountsCalm(st)
    && e.heightMode == a.heightMode && e.widthMode == a.widthMode
    && (e.heightMode == Fix ==> e.fixedHeight == a.fixedHeight)
    && (e.widthMode == Fix ==> e.fixedWidth == a.fixedWidth)
  }

  /** Steps that touch only the modes and the fixed sizes keep the counts calm. */
  lemma CountsCalmKept(a: GridState, b: GridState)
    requires CountsCalm(a) && SameShape(a, b)
    requires b.exposed.spacing == a.exposed.spacing && b.applied.spacing == a.applied.spacing
    requires b.exposed.fetchColumns == a.exposed.fetchColumns && b.applied.fetchColumns == a.applied.fetchColumns
    requires b.exposed.fetchRows == a.exposed.fetchRows && b.applied.fetchRows == a.applied.fetchRows
    ensures CountsCalm(b)
  {
  }

  /** A settled controller does nothing on a frame. */
  lemma SettledIsQuiet(st: GridState, sc: Scene)
    requires WellFormed(st) && Settled(st)
    ensures Ticked(st, sc) == st
  {
  }

  /** One frame settles the modes and the fixed sizes and leaves every clamped knob at a value
      its clamp keeps. */
  lemma FirstTickCalms(st: GridState, sc: Scene)
    requires WellFormed(st)
    ensures Calm(Ticked(st, sc))
  {
    var s1 := SpacingStep(st, sc);
    var s2 := FetchColumnsStep(s1, sc);
    var s3 := FetchRowsStep(s2);
    assert CountsCalm(s3);
    var s4 := HeightModeStep(s3, sc);
    CountsCalmKept(s3, s4);
    var s5 := WidthModeStep(s4, sc);
    CountsCalmKept(s4, s5);
    assert s5.exposed.heightMode == s5.applied.heightMode;
    var s6 := FixedHeightStep(s5, sc);
    CountsCalmKept(s5, s6);
    assert s6.exposed.widthMode == s6.applied.widthMode;
    var s7 := FixedWidthStep(s6, sc);
    CountsCalmKept(s6, s7);
    assert s7 == Ticked(st, sc);
  }

  /** From a calm state one more frame settles everything. */
  lemma CalmTickSettles(st: GridState, sc: Scene)
    requires WellFormed(st) && Calm(st)
    ensures Settled(Ticked(st, sc))
  {
    var s3 := FetchRowsStep(FetchColumnsStep(SpacingStep(st, sc), sc));
    assert Settled(s3);
  }

  /** Whatever the knobs hold, two frames without outside changes leave nothing to do. */
  lemma TwoTicksSettle(st: GridState, sc: Scene)
    requires WellFormed(st)
    ensures Settled(Ticked(Ticked(st, sc), sc))
  {
    FirstTickCalms(st, sc);
    CalmTickSettles(Ticked(st, sc), sc);
  }

  // ---------------------------------------------------------------------------------------
  // What the handlers promise

  /** A valid column request shows exactly the first that many groups and lays the horizontal
      group out over them with the request as its column count. */
  lemma ColumnsShown(st: GridState, sc: Scene)
    requires 0 <= st.exposed.fetchColumns <= |st.groups|
    ensures var s, r := st.exposed.fetchColumns, ColumnsReadjusted(st, sc);
      (forall j :: 0 <= j < |st.groups| ==> (r.groups[j].rect.active <==> j < s))
      && ActiveCount(Rects(r.groups)) == s
      && r.horizontal == Reconfigure(st.horizontal.(columns := s), s, sc.width, sc.height, sc.padding)
  {
    var s := st.exposed.fetchColumns;
    var gs := EditGroups(st.groups, Show(s), |st.groups|);
    var r := ColumnsReadjusted(st, sc);
    ShownGroupsCount(st.groups, s);
    ActiveCountFlagsOnly(Rects(r.groups), Rects(gs));
  }

  /** Any other column request only reaches the horizontal group's settings. */
  lemma ColumnsIgnored(st: GridState, sc: Scene)
    requires st.exposed.fetchColumns < 0 || st.exposed.fetchColumns > |st.groups|
    ensures var r := ColumnsReadjusted(st, sc);
      r.groups == st.groups && r.horizontal == st.horizontal.(columns := st.exposed.fetchColumns)
  {
  }

  /** In a FixedColumns horizontal group, showing s > 0 columns puts them in one row. */
  lemma ShownColumnsInOneRow(st: GridState, sc: Scene)
    requires st.horizontal.fitType == FixedColumns && 0 < st.exposed.fetchColumns <= |st.groups|
    ensures var r := ColumnsReadjusted(st, sc);
      r.horizontal.rows == 1 && r.horizontal.columns == st.exposed.fetchColumns
  {
    var s := st.exposed.fetchColumns;
    ColumnsShown(st, sc);
    OneRowForAll(st.horizontal.(columns := s), s);
  }

  /** A row request reaches the horizontal group unclamped, the knob is left between 0 and both
      caps, and a valid request shows exactly the data rows up to it, keeping the header row. */
  lemma RowsShown(st: GridState)
    ensures var s, r := st.exposed.fetchRows, RowsReadjusted(st);
      r.horizontal == st.horizontal.(rows := s)
      && 0 <= r.exposed.fetchRows <= MaxShownRows && r.exposed.fetchRows <= |st.textGrid|
      && if 0 <= s <= |st.textGrid| then
           (|st.textGrid| > 0 ==> r.textGrid[0] == st.textGrid[0])
           && forall i, k :: 1 <= i < |st.textGrid| && 0 <= k < |st.textGrid[i]| ==>
                |r.textGrid[i]| == |st.textGrid[i]| && (r.textGrid[i][k].rect.active <==> i <= s)
         else r.textGrid == st.textGrid
  {
    ShownRows(st.textGrid, st.exposed.fetchRows);
  }

  /** Two row handlers in a row leave the knob equal to its shadow copy, so `LateUpdate` stops
      calling the handler. */
  lemma RowsSettleAfterTwo(st: GridState)
    ensures var r := RowsReadjusted(RowsReadjusted(st));
      r.exposed.fetchRows == r.applied.fetchRows
  {
    ClampCountIdempotent(st.exposed.fetchRows, MaxShownRows, |st.textGrid|);
  }

  /** Two column handlers in a row leave the knob equal to its shadow copy. */
  lemma ColumnsSettleAfterTwo(st: GridState, sc: Scene)
    ensures var r := ColumnsReadjusted(ColumnsReadjusted(st, sc), sc);
      r.exposed.fetchColumns == r.applied.fetchColumns
  {
    ClampCountIdempotent(st.exposed.fetchColumns, MaxShownColumns, |st.groups|);
  }

  /** Spacing: every group gets the knob's vertical gap, stops fitting its height unless its fit
      type takes the square root, and runs its pass over its column of text cells, which keep
      their texts and active flags; the horizontal group gets the clamped horizontal gap; and
      because the knob is clamped after it was recorded, a negative gap makes the handler run
      once more on the next frame. */
  lemma SpacingApplied(st: GridState, sc: Scene)
    requires CellsFit(st)
    ensures var s, r := st.exposed.spacing, SpacingAdjusted(st, sc);
      var t, u := TreeOf(st), TreeOf(r);
      (forall j :: 0 <= j < |st.groups| ==>
         var c, g := st.groups[j].config, r.groups[j].config;
         g.spacing == Vec2(c.spacing.x, s.y) && g.fitY == SquareFit(c.fitType)
         && g == Reconfigure(c.(fitY := false, spacing := Vec2(c.spacing.x, s.y)), ActiveCount(Children(t, j)),
                             st.groups[j].rect.width, st.groups[j].rect.height, sc.groupPadding)
         && Children(u, j) == Arrange(Children(t, j), ActiveCount(Children(t, j)), g, sc.groupPadding))
      && CellsKept(st.textGrid, r.textGrid)
      && r.horizontal.spacing == Vec2(if s.x < 0.0 then 0.0 else s.x, st.horizontal.spacing.y)
      && (r.exposed.spacing != r.applied.spacing <==> s.x < 0.0)
  {
    var s, t := st.exposed.spacing, TreeOf(st);
    var p := Swept(t, Respace(s.y), |st.groups|, sc);
    var u := TreeOf(SpacingAdjusted(st, sc));
    forall j | 0 <= j < |st.groups|
      ensures p.groups[j] == PassedGroup(t, Respace(s.y), j, sc)
      ensures Children(u, j) == Arrange(Children(t, j), ActiveCount(Children(t, j)), p.groups[j].config, sc.groupPadding)
    {
      SweptGroup(t, Respace(s.y), |st.groups|, sc, j);
      SameChildren(p, u, j);
    }
  }

  /** After a loop over every group the groups' rects are the edited ones: a group's own pass
      changes its settings, not its rect. */
  lemma SweptRects(t: Tree, e: GroupEdit, sc: Scene)
    requires Fits(t) && (e.BestFitColumn? ==> |e.avgWords| >= |t.groups|)
    ensures Rects(Swept(t, e, |t.groups|, sc).groups) == Rects(EditGroups(t.groups, e, |t.groups|))
  {
    var p := Swept(t, e, |t.groups|, sc);
    forall j | 0 <= j < |t.groups|
      ensures Rects(p.groups)[j] == Rects(EditGroups(t.groups, e, |t.groups|))[j]
    {
      SweptGroup(t, e, |t.groups|, sc, j);
    }
  }

  /** Homogeneous widths: every group and the horizontal group fit their width as asked, no
      column keeps its own width, so every shown group is exactly one cell wide, and a fitted
      cell shares the parent width. */
  lemma HomogeneousWidthShared(st: GridState, v: bool, sc: Scene)
    ensures var r := HomogeneousWidth(st, v, sc);
      var h, n := r.horizontal, ActiveCount(Rects(st.groups));
      !h.uniqueX && h.fitX == (v || SquareFit(h.fitType))
      && (forall j :: 0 <= j < |st.groups| ==>
            r.groups[j].config.fitX == v && (j < n ==> r.groups[j].rect.width == h.cellSize.x))
      && (h.fitX && h.columns != 0 ==> h.cellSize.x == FitWidth(sc.width, h.columns, h.spacing.x, sc.padding))
  {
    var gs := EditGroups(st.groups, FitColumns(v), |st.groups|);
    ActiveCountFlagsOnly(Rects(gs), Rects(st.groups));
    var r := HomogeneousWidth(st, v, sc);
    forall j | 0 <= j < |st.groups|
      ensures r.groups[j].config.fitX == v
      ensures j < ActiveCount(Rects(st.groups)) ==> r.groups[j].rect.width == r.horizontal.cellSize.x
    {
      ArrangedWidth(Rects(gs), ActiveCount(Rects(gs)), r.horizontal, sc.padding, j);
    }
  }

  /** Homogeneous heights: every group stops sizing rows on its own, fits its height as asked
      unless its fit type takes the square root, and runs its pass over its column of text
      cells; in the horizontal group it is the unique-width flag that is cleared, the
      unique-height flag is left as it was, and every shown group is one cell wide. */
  lemma HomogeneousHeightShared(st: GridState, v: bool, sc: Scene)
    requires CellsFit(st)
    ensures var r := HomogeneousHeight(st, v, sc);
      var h, n, t, u := r.horizontal, ActiveCount(Rects(st.groups)), TreeOf(st), TreeOf(r);
      !h.uniqueX && h.uniqueY == st.horizontal.uniqueY && h.fitY == (v || SquareFit(h.fitType))
      && CellsKept(st.textGrid, r.textGrid)
      && forall j :: 0 <= j < |st.groups| ==>
           !r.groups[j].config.uniqueY && r.groups[j].config.fitY == (v || SquareFit(st.groups[j].config.fitType))
           && Children(u, j) == Arrange(Children(t, j), ActiveCount(Children(t, j)), r.groups[j].config, sc.groupPadding)
           && (j < n ==> r.groups[j].rect.width == h.cellSize.x)
  {
    forall j | 0 <= j < |st.groups| {
      HomogeneousGroupShared(st, v, sc, j);
    }
  }

  /** Group j under homogeneous heights: its row-fitting flags as the loop sets them, its
      column placed by its own pass, and one cell wide in the horizontal group when shown. */
  lemma HomogeneousGroupShared(st: GridState, v: bool, sc: Scene, j: nat)
    requires CellsFit(st) && j < |st.groups|
    ensures var r := HomogeneousHeight(st, v, sc);
      var h, n, t, u := r.horizontal, ActiveCount(Rects(st.groups)), TreeOf(st), TreeOf(r);
      !r.groups[j].config.uniqueY && r.groups[j].config.fitY == (v || SquareFit(st.groups[j].config.fitType))
      && Children(u, j) == Arrange(Children(t, j), ActiveCount(Children(t, j)), r.groups[j].config, sc.groupPadding)
      && (j < n ==> r.groups[j].rect.width == h.cellSize.x)
  {
    var n, t := |st.groups|, TreeOf(st);
    var cleared := Tree(EditGroups(st.groups, ClearUniqueY, n), st.textGrid, st.cellsInGroups);
    var p := Swept(cleared, FitRows(v), n, sc);
    SweptRects(cleared, FitRows(v), sc);
    assert Rects(p.groups) == Rects(st.groups);
    var r := HomogeneousHeight(st, v, sc);
    SweptGroup(cleared, FitRows(v), n, sc, j);
    var c := st.groups[j].config.(uniqueY := false, fitY := v);
    assert Edit(cleared.groups[j], FitRows(v), j).config == c;
    assert r.groups[j].config == Reconfigure(c, ActiveCount(Children(cleared, j)), st.groups[j].rect.width,
                                             st.groups[j].rect.height, sc.groupPadding);
    SameChildren(t, cleared, j);
    SameChildren(p, TreeOf(r), j);
    ArrangedWidth(Rects(p.groups), ActiveCount(Rects(p.groups)), r.horizontal, sc.padding, j);
  }

  /** Fixed sizes: with both modes Fix and a fit type that does not take the square root,
      neither axis is fitted, so an axis with cells takes the fixed size, and every shown
      group is exactly the fixed width; every group stops sizing rows on its own and runs its
      pass over its column of text cells. */
  lemma FixedSizesApplied(st: GridState, sc: Scene)
    requires CellsFit(st)
    requires st.exposed.heightMode == Fix && st.exposed.widthMode == Fix && !SquareFit(st.horizontal.fitType)
    ensures var r := FixedApplied(st, sc);
      var h, n, t, u := r.horizontal, ActiveCount(Rects(st.groups)), TreeOf(st), TreeOf(r);
      !h.fitX && !h.fitY && !h.uniqueX
      && (h.columns != 0 ==> h.cellSize.x == st.exposed.fixedWidth)
      && (h.rows != 0 ==> h.cellSize.y == st.exposed.fixedHeight)
      && (forall j :: 0 <= j < n ==> r.groups[j].rect.width == h.cellSize.x)
      && forall j :: 0 <= j < |st.groups| ==>
           r.groups[j].config == Reconfigure(st.groups[j].config.(uniqueY := false), ActiveCount(Children(t, j)),
                                             st.groups[j].rect.width, st.groups[j].rect.height, sc.groupPadding)
           && !r.groups[j].config.uniqueY
           && Children(u, j) == Arrange(Children(t, j), ActiveCount(Children(t, j)), r.groups[j].config, sc.groupPadding)
  {
    forall j | 0 <= j < |st.groups| {
      FixedGroupApplied(st, sc, j);
    }
  }

  /** Group j under fixed sizes: the horizontal pass gives a shown group the fixed cell width,
      and the group's own pass reconfigures it and places its column. */
  lemma FixedGroupApplied(st: GridState, sc: Scene, j: nat)
    requires CellsFit(st) && j < |st.groups|
    requires st.exposed.heightMode == Fix && st.exposed.widthMode == Fix && !SquareFit(st.horizontal.fitType)
    ensures var r := FixedApplied(st, sc);
      var h, n, t, u := r.horizontal, ActiveCount(Rects(st.groups)), TreeOf(st), TreeOf(r);
      (j < n ==> r.groups[j].rect.width == h.cellSize.x)
      && r.groups[j].config == Reconfigure(st.groups[j].config.(uniqueY := false), ActiveCount(Children(t, j)),
                                           st.groups[j].rect.width, st.groups[j].rect.height, sc.groupPadding)
      && !r.groups[j].config.uniqueY
      && Children(u, j) == Arrange(Children(t, j), ActiveCount(Children(t, j)), r.groups[j].config, sc.groupPadding)
  {
    var n, t := |st.groups|, TreeOf(st);
    var cleared := Tree(EditGroups(st.groups, ClearUniqueY, n), st.textGrid, st.cellsInGroups);
    var p := Swept(cleared, Keep, n, sc);
    SweptRects(cleared, Keep, sc);
    assert Rects(p.groups) == Rects(st.groups);
    var r := FixedApplied(st, sc);
    SweptGroup(cleared, Keep, n, sc, j);
    SameChildren(t, cleared, j);
    SameChildren(p, TreeOf(r), j);
    ArrangedWidth(Rects(p.groups), ActiveCount(Rects(p.groups)), r.horizontal, sc.padding, j);
  }

  /** A square-root fit type overrides Fix mode: both axes are fitted again by the pass. */
  lemma SquareFitOverridesFixed(st: GridState, sc: Scene)
    requires CellsFit(st) && SquareFit(st.horizontal.fitType)
    ensures var h := FixedApplied(st, sc).horizontal;
      h.fitX && h.fitY && (h.columns != 0 ==> h.cellSize.x == FitWidth(sc.width, h.columns, h.spacing.x, sc.padding))
  {
  }

  /** Best-fit widths: every group is sized from its column's average, at most 350 wide, and
      the horizontal group keeps those widths; each group runs its pass with that new width
      and its old cell height as the parent size, over its column of text cells. */
  lemma BestFitColumnsSized(st: GridState, sc: Scene)
    requires WellFormed(st)
    ensures var r := BestFitWidths(st, sc);
      var t, u := TreeOf(st), TreeOf(r);
      r.horizontal.uniqueX
      && CellsKept(st.textGrid, r.textGrid)
      && forall j :: 0 <= j < |st.groups| ==>
           var c := st.groups[j].config;
           r.groups[j].rect.width == BestFitWidth(st.avgWords[j]) <= 350.0
           && r.groups[j].rect.active == st.groups[j].rect.active
           && r.groups[j].config == Reconfigure(c, ActiveCount(Children(t, j)), BestFitWidth(st.avgWords[j]),
                                                c.cellSize.y, sc.groupPadding)
           && Children(u, j) == Arrange(Children(t, j), ActiveCount(Children(t, j)), r.groups[j].config, sc.groupPadding)
  {
    forall j | 0 <= j < |st.groups| {
      BestFitColumnSized(st, sc, j);
    }
  }

  /** Best-fit widths, for group j. */
  lemma BestFitColumnSized(st: GridState, sc: Scene, j: nat)
    requires WellFormed(st) && j < |st.groups|
    ensures var r := BestFitWidths(st, sc);
      var t, u, c := TreeOf(st), TreeOf(r), st.groups[j].config;
      r.groups[j].rect.width == BestFitWidth(st.avgWords[j]) <= 350.0
      && r.groups[j].rect.active == st.groups[j].rect.active
      && r.groups[j].config == Reconfigure(c, ActiveCount(Children(t, j)), BestFitWidth(st.avgWords[j]),
                                           c.cellSize.y, sc.groupPadding)
      && Children(u, j) == Arrange(Children(t, j), ActiveCount(Children(t, j)), r.groups[j].config, sc.groupPadding)
  {
    BestFitColumnRect(st, sc, j);
    BestFitColumnConfig(st, sc, j);
    BestFitColumnChildren(st, sc, j);
  }

  /** Best-fit widths, for group j's rect: the horizontal pass keeps the width the loop gave
      it. */
  lemma BestFitColumnRect(st: GridState, sc: Scene, j: nat)
    requires WellFormed(st) && j < |st.groups|
    ensures var r := BestFitWidths(st, sc);
      r.groups[j].rect.width == BestFitWidth(st.avgWords[j]) <= 350.0
      && r.groups[j].rect.active == st.groups[j].rect.active
  {
    var n, t := |st.groups|, TreeOf(st);
    var e := BestFitColumn(st.avgWords);
    var p := Swept(t, e, n, sc);
    var g := Edit(st.groups[j], e, j);
    assert g.rect.width == BestFitWidth(st.avgWords[j]) && g.rect.active == st.groups[j].rect.active;
    SweptRects(t, e, sc);
    var rs := Rects(p.groups);
    assert rs[j] == g.rect;
    var r := BestFitWidths(st, sc);
    assert r.horizontal.uniqueX;
    assert r.groups[j].rect == Arrange(rs, ActiveCount(rs), r.horizontal, sc.padding)[j];
    ArrangedWidth(rs, ActiveCount(rs), r.horizontal, sc.padding, j);
  }

  /** Best-fit widths, for group j's own pass: its settings reconfigured with its new width
      and old cell height as the parent size. */
  lemma BestFitColumnConfig(st: GridState, sc: Scene, j: nat)
    requires WellFormed(st) && j < |st.groups|
    ensures var r := BestFitWidths(st, sc);
      var t, c := TreeOf(st), st.groups[j].config;
      r.groups[j].config == Reconfigure(c, ActiveCount(Children(t, j)), BestFitWidth(st.avgWords[j]),
                                        c.cellSize.y, sc.groupPadding)
  {
    var n, t, c := |st.groups|, TreeOf(st), st.groups[j].config;
    var e := BestFitColumn(st.avgWords);
    var p := Swept(t, e, n, sc);
    var g := Edit(st.groups[j], e, j);
    assert g.config == c && g.rect.width == BestFitWidth(st.avgWords[j]) && g.rect.height == c.cellSize.y;
    SweptGroup(t, e, n, sc, j);
    assert p.groups[j] == GroupPassed(g, Children(t, j), sc);
    assert BestFitWidths(st, sc).groups[j].config == p.groups[j].config;
  }

  /** Best-fit widths, for group j's column: placed by the group's new settings. */
  lemma BestFitColumnChildren(st: GridState, sc: Scene, j: nat)
    requires WellFormed(st) && j < |st.groups|
    ensures var r := BestFitWidths(st, sc);
      var t, u := TreeOf(st), TreeOf(r);
      Children(u, j) == Arrange(Children(t, j), ActiveCount(Children(t, j)), r.groups[j].config, sc.groupPadding)
  {
    var n, t := |st.groups|, TreeOf(st);
    var e := BestFitColumn(st.avgWords);
    var p := Swept(t, e, n, sc);
    var r := BestFitWidths(st, sc);
    SweptGroup(t, e, n, sc, j);
    SameChildren(p, TreeOf(r), j);
    assert r.groups[j].config == PassedGroup(t, e, j, sc).config;
  }

  /** With non-negative averages, gap and left padding, best-fit groups i < j that are both
      shown do not overlap: group i ends before group j starts. */
  lemma BestFitColumnsPacked(st: GridState, sc: Scene, i: nat, j: nat)
    requires WellFormed(st) && forall k :: 0 <= k < |st.avgWords| ==> st.avgWords[k] >= 0
    requires sc.padding.left >= 0 && st.horizontal.spacing.x >= 0.0
    requires i < j < ActiveCount(Rects(st.groups))
    ensures var r := BestFitWidths(st, sc);
      r.groups[i].rect.x + r.groups[i].rect.width <= r.groups[j].rect.x
  {
    var e := BestFitColumn(st.avgWords);
    SweptRects(TreeOf(st), e, sc);
    var rs := Rects(EditGroups(st.groups, e, |st.groups|));
    ActiveCountFlagsOnly(rs, Rects(st.groups));
    var r := BestFitWidths(st, sc);
    var n := ActiveCount(rs);
    ArrangedWidth(rs, n, r.horizontal, sc.padding, i);
    ArrangedWidth(rs, n, r.horizontal, sc.padding, j);
    PackedDisjoint(rs, i, j, r.horizontal, sc.padding);
  }

  /** Best-fit heights: every group sizes its rows on its own and the cells keep their texts and
      active flags; when the shown-row count is valid and there is a group, every data cell has
      its row's best-fit height of at most 200 and the last group's old cell width, except
      that in the last column a shown cell gets the last group's new cell width from its pass
      unless that group keeps unique widths. */
  lemma BestFitRowsSized(st: GridState, sc: Scene)
    requires WellFormed(st)
    ensures var r, n := BestFitHeights(st, sc), |st.groups|;
      (forall j :: 0 <= j < n ==> r.groups[j].config.uniqueY)
      && CellsKept(st.textGrid, r.textGrid)
      && (n > 0 && RowsSizable(st) ==> RowsBestFitted(st, r))
      && (!st.cellsInGroups && !RowsSizable(st) ==> r.textGrid == st.textGrid)
  {
    BestFitRowsUnique(st, sc);
    BestFitCellsSized(st, sc);
    BestFitRowsUntouched(st, sc);
  }

  /** Best-fit heights: every group sizes its rows on its own. */
  lemma BestFitRowsUnique(st: GridState, sc: Scene)
    requires WellFormed(st)
    ensures var r := BestFitHeights(st, sc);
      forall j :: 0 <= j < |st.groups| ==> r.groups[j].config.uniqueY
  {
    var p := RowsSwept(TreeOf(st), st.avgRows, RowsSizable(st), |st.groups|, sc);
    BestFitHeightsSwept(st, sc);
    forall j | 0 <= j < |st.groups|
      ensures p.groups[j].config.uniqueY
    {
      assert p.groups[j] == RowsGroup(TreeOf(st), st.avgRows, RowsSizable(st), j, sc);
    }
  }

  /** Best-fit heights with an invalid shown-row count, while the groups are fresh: the text
      cells are left alone. */
  lemma BestFitRowsUntouched(st: GridState, sc: Scene)
    requires WellFormed(st)
    ensures var r := BestFitHeights(st, sc);
      !st.cellsInGroups && !RowsSizable(st) ==> r.textGrid == st.textGrid
  {
    if !st.cellsInGroups && !RowsSizable(st) {
      BestFitHeightsSwept(st, sc);
      RowsSweptUnlinked(TreeOf(st), st.avgRows, |st.groups|, sc);
    }
  }

  /** Best-fit heights, for every data cell. */
  lemma BestFitCellsSized(st: GridState, sc: Scene)
    requires WellFormed(st)
    ensures var r := BestFitHeights(st, sc);
      |st.groups| > 0 && RowsSizable(st) ==> RowsBestFitted(st, r)
  {
    var r := BestFitHeights(st, sc);
    if |st.groups| > 0 && RowsSizable(st) {
      forall i, m | 1 <= i < |st.textGrid| && 0 <= m < |st.textGrid[i]|
        ensures CellBestFitted(st, r, i, m)
      {
        BestFitCellSized(st, sc, i, m);
      }
    }
  }

  /** Every data cell of r is best-fitted as `CellBestFitted` states. */
  predicate RowsBestFitted(st: GridState, r: GridState)
    requires WellFormed(st) && |st.groups| > 0 && |r.groups| == |st.groups| && CellsKept(st.textGrid, r.textGrid)
  {
    forall i, m :: 1 <= i < |st.textGrid| && 0 <= m < |st.textGrid[i]| ==> CellBestFitted(st, r, i, m)
  }

  /** Data cell (i, m) of r, after best-fit heights on st: its row's best-fit height, at most
      200, and the last group's cell width from before that group's pass, except that a shown
      cell of the last column takes the width the pass computes unless the group keeps unique
      widths. */
  predicate CellBestFitted(st: GridState, r: GridState, i: nat, m: nat)
    requires WellFormed(st) && |st.groups| > 0 && |r.groups| == |st.groups| && CellsKept(st.textGrid, r.textGrid)
    requires 1 <= i < |st.textGrid| && m < |st.textGrid[i]|
  {
    var n := |st.groups|;
    r.textGrid[i][m].rect.height == BestFitHeight(st.avgRows[i]) <= 200.0
    && r.textGrid[i][m].rect.width
       == if m == n - 1 && st.cellsInGroups && i < ActiveCount(Children(TreeOf(st), n - 1))
             && !r.groups[n - 1].config.uniqueX
          then r.groups[n - 1].config.cellSize.x else st.groups[n - 1].config.cellSize.x
  }

  /** Best-fit heights, for data cell (i, m). */
  lemma BestFitCellSized(st: GridState, sc: Scene, i: nat, m: nat)
    requires WellFormed(st) && |st.groups| > 0 && RowsSizable(st)
    requires 1 <= i < |st.textGrid| && m < |st.textGrid[i]|
    ensures CellBestFitted(st, BestFitHeights(st, sc), i, m)
  {
    var t, n := TreeOf(st), |st.groups|;
    var p := RowsSwept(t, st.avgRows, true, n, sc);
    BestFitHeightsSwept(st, sc);
    assert p.textGrid[i][m] == RowsCell(t, st.avgRows, true, n, sc, i, m);
    assert p.groups[n - 1] == RowsGroup(t, st.avgRows, true, n - 1, sc);
    RowsCellSized(t, st.avgRows, n, sc, i, m);
  }

  /** `BestFitRowsHeight` leaves the text cells and the group settings as its group loop does. */
  lemma BestFitHeightsSwept(st: GridState, sc: Scene)
    requires WellFormed(st)
    ensures var r, p := BestFitHeights(st, sc), RowsSwept(TreeOf(st), st.avgRows, RowsSizable(st), |st.groups|, sc);
      r.textGrid == p.textGrid && |r.groups| == |p.groups|
      && forall j :: 0 <= j < |st.groups| ==> r.groups[j].config == p.groups[j].config
  {
  }

  /** With sizing, a data cell after k > 0 turns has its row's best-fit height and group
      k - 1's old cell width, except that in column k - 1 a shown cell gets the group's new
      cell width unless the group keeps unique widths. */
  lemma RowsCellSized(t: Tree, avgRows: seq<real>, k: nat, sc: Scene, i: nat, m: nat)
    requires Fits(t) && |avgRows| == |t.textGrid| && 0 < k <= |t.groups|
    requires 1 <= i < |t.textGrid| && m < |t.textGrid[i]|
    ensures var c, g := RowsCell(t, avgRows, true, k, sc, i, m), RowsGroup(t, avgRows, true, k - 1, sc);
      c.rect.height == BestFitHeight(avgRows[i])
      && c.rect.width == if m == k - 1 && t.linked && i < ActiveCount(Children(t, k - 1)) && !g.config.uniqueX
                         then g.config.cellSize.x else t.groups[k - 1].config.cellSize.x
  {
    if t.linked && m == k - 1 {
      RowsCellPlaced(t, avgRows, k, sc, i, m);
    }
  }

  /** The cell of column k - 1 after its group's turn: resized, then placed by the group. */
  lemma RowsCellPlaced(t: Tree, avgRows: seq<real>, k: nat, sc: Scene, i: nat, m: nat)
    requires Fits(t) && |avgRows| == |t.textGrid| && 0 < k <= |t.groups|
    requires 1 <= i < |t.textGrid| && m < |t.textGrid[i]|
    requires t.linked && m == k - 1
    ensures var c, g := RowsCell(t, avgRows, true, k, sc, i, m), RowsGroup(t, avgRows, true, k - 1, sc);
      c.rect.height == BestFitHeight(avgRows[i])
      && c.rect.width == if m == k - 1 && t.linked && i < ActiveCount(Children(t, k - 1)) && !g.config.uniqueX
                         then g.config.cellSize.x else t.groups[k - 1].config.cellSize.x
  {
    var kids := TurnColumn(t, avgRows, true, m);
    var g := RowsGroup(t, avgRows, true, m, sc);
    var placed := Arrange(kids, ActiveCount(kids), g.config, sc.groupPadding);
    assert RowsCell(t, avgRows, true, k, sc, i, m) == t.textGrid[i][m].(rect := placed[i]);
    assert kids[i] == Resized(t.textGrid[i][m], avgRows, true, i, t.groups[m].config.cellSize.x).rect;
    ActiveCountFlagsOnly(kids, Children(t, m));
    ArrangedWidth(kids, ActiveCount(kids), g.config, sc.groupPadding, i);
    ArrangedHeight(kids, ActiveCount(kids), g.config, sc.groupPadding, i);
  }

  // ---------------------------------------------------------------------------------------
  // Building the grid

  /** The shadow copies as C# leaves them before the first build: zero spacing, zero counts,
      the first mode of each enumeration and zero fixed sizes. */
  const Unapplied := Settings(Vec2(0.0, 0.0), 0, 0, Homogeneous, Homogeneous, 0.0, 0.0)

  /** The state `Awake` starts from: the inspector's knobs, no table, no groups, no cells. */
  function Awoken(knobs: Settings, horizontal: GridConfig): GridState
  {
    GridState(knobs, Unapplied, [], [], horizontal, [], [], [], [], false)
  }

  /** `CleanGrid`: the horizontal pass, then both shadow modes set to Empty so that the next
      frame re-applies both modes. */
  function Cleaned(st: GridState, sc: Scene): (r: GridState)
    ensures SameShape(st, r)
    ensures r.exposed == st.exposed
    ensures r.applied == st.applied.(heightMode := Empty, widthMode := Empty)
    ensures r.textGrid == st.textGrid
  {
    var p := HorizontalPass(st, sc);
    p.(applied := p.applied.(heightMode := Empty, widthMode := Empty))
  }

  /** A fresh vertical group: the prefab with the requested rows and a single column. */
  function NewGroup(sc: Scene, rows: int): (g: VerticalGroup)
    ensures g.rect == sc.verticalPrefab.rect
    ensures g.config.rows == rows && g.config.columns == 1
  {
    sc.verticalPrefab.(config := sc.verticalPrefab.config.(rows := rows, columns := 1))
  }

  /** The column averages `CreateVerticalGrids` records, from the text grid of the build before. */
  function ColumnAverages(headers: seq<string>, data: seq<seq<string>>, columns: nat, textRows: nat): (r: seq<int>)
    requires Rectangular(headers, data) && columns <= |headers| && textRows <= |data| + 1
    ensures |r| == columns
  {
    seq(columns, j requires 0 <= j < columns => AvgLengthWords(headers, data, j, textRows))
  }

  /** The state after the loop of `CreateVerticalGrids`, before its two homogeneous handlers. */
  function GroupsReplaced(st: GridState, columns: nat, rows: nat, sc: Scene): (r: GridState)
    requires Rectangular(st.headers, st.data) && columns <= |st.headers| && |st.textGrid| <= |st.data| + 1
    ensures |r.groups| == columns && !r.cellsInGroups
  {
    st.(horizontal := st.horizontal.(columns := columns, rows := rows),
        groups := seq(columns, j => NewGroup(sc, rows)),
        avgWords := ColumnAverages(st.headers, st.data, columns, |st.textGrid|),
        cellsInGroups := false)
  }

  /** `CreateVerticalGrids`: the columns and rows into the horizontal group, a fresh group and
      its column average per column, then the homogeneous handler of each axis whose exposed
      mode is Homogeneous. */
  function VerticalsCreated(st: GridState, columns: nat, rows: nat, sc: Scene): (r: GridState)
    requires Rectangular(st.headers, st.data) && columns <= |st.headers| && |st.textGrid| <= |st.data| + 1
    ensures |r.groups| == columns
    ensures r.avgWords == ColumnAverages(st.headers, st.data, columns, |st.textGrid|)
    ensures r.headers == st.headers && r.data == st.data && r.textGrid == st.textGrid && r.avgRows == st.avgRows
    ensures !r.cellsInGroups
    ensures r.applied == st.applied
    ensures r.exposed.(fixedHeight := st.exposed.fixedHeight, fixedWidth := st.exposed.fixedWidth) == st.exposed
  {
    var s1 := GroupsReplaced(st, columns, rows, sc);
    var s2 := if s1.exposed.widthMode == Homogeneous then HomogeneousWidth(s1, true, sc) else s1;
    if s2.exposed.heightMode == Homogeneous then HomogeneousHeight(s2, true, sc) else s2
  }

  /** `CreateTextElements`: rows + 1 text rows of `columns` cells, the header row first, cell
      (i, j) a child of group j, and one row average per text row. */
  function TextCreated(st: GridState, columns: nat, rows: nat, sc: Scene): (r: GridState)
    requires Rectangular(st.headers, st.data) && rows <= |st.data| && columns <= |st.headers|
    requires columns == |st.groups|
    ensures |st.avgWords| == |st.groups| ==> WellFormed(r)
    ensures r.cellsInGroups
    ensures r.(textGrid := st.textGrid, avgRows := st.avgRows, cellsInGroups := st.cellsInGroups) == st
  {
    var g := TextRows(st.headers, st.data, rows + 1, columns, sc);
    st.(textGrid := g, avgRows := RowAverages(g), cellsInGroups := true)
  }

  /** `BuildGrid` on a parsed table: the table and its full size into the exposed counters,
      `CleanGrid`, the groups, the text cells, and both exposed modes back to Homogeneous. */
  function Built(st: GridState, headers: seq<string>, data: seq<seq<string>>, sc: Scene): (r: GridState)
    requires Rectangular(headers, data) && |st.textGrid| <= |data| + 1
    ensures WellFormed(r)
  {
    var s0 := st.(headers := headers, data := data,
                  exposed := st.exposed.(fetchColumns := |headers|, fetchRows := |data|));
    var s1 := Cleaned(s0, sc);
    var s2 := VerticalsCreated(s1, |headers|, |data|, sc);
    var s3 := TextCreated(s2, |headers|, |data|, sc);
    s3.(exposed := s3.exposed.(heightMode := Homogeneous, widthMode := Homogeneous))
  }

  /** A build holds one group and one column average per header, the header row and one text
      row per data row, and one row average per text row; the exposed counters hold the table's
      full size, and both shadow modes are Empty so that the next frame re-applies both modes. */
  lemma BuiltGrid(st: GridState, headers: seq<string>, data: seq<seq<string>>, sc: Scene)
    requires Rectangular(headers, data) && |st.textGrid| <= |data| + 1
    ensures var r := Built(st, headers, data, sc);
      r.headers == headers && r.data == data
      && |r.groups| == |headers|
      && r.avgWords == ColumnAverages(headers, data, |headers|, |st.textGrid|)
      && |r.textGrid| == |data| + 1
      && (forall j :: 0 <= j < |headers| ==> r.textGrid[0][j].text == headers[j])
      && (forall i, j :: 1 <= i <= |data| && 0 <= j < |headers| ==> r.textGrid[i][j].text == data[i - 1][j])
      && (forall i :: 0 <= i <= |data| ==> |r.textGrid[i]| == |headers| && r.avgRows[i] == AvgRow(r.textGrid[i]))
      && r.exposed.fetchColumns == |headers| && r.exposed.fetchRows == |data|
      && r.exposed.heightMode == Homogeneous && r.exposed.widthMode == Homogeneous
      && r.applied == st.applied.(heightMode := Empty, widthMode := Empty)
  {
    TextRowsContents(headers, data, |headers|, sc);
  }

  /** The column averages are taken over the text grid of the build before: on the first build
      there is none, and each average is just the header's length. */
  lemma FirstBuildAverages(knobs: Settings, horizontal: GridConfig, headers: seq<string>, data: seq<seq<string>>, sc: Scene)
    requires Rectangular(headers, data)
    ensures var r := Built(Awoken(knobs, horizontal), headers, data, sc);
      forall j :: 0 <= j < |headers| ==> r.avgWords[j] == |headers[j]|
  {
    BuiltGrid(Awoken(knobs, horizontal), headers, data, sc);
  }

  /** The frame after a build applies the Homogeneous mode on both axes. */
  lemma BuildThenTickHomogeneous(st: GridState, headers: seq<string>, data: seq<seq<string>>, sc: Scene)
    requires Rectangular(headers, data) && |st.textGrid| <= |data| + 1
    ensures var t := Ticked(Built(st, headers, data, sc), sc);
      t.applied.heightMode == Homogeneous && t.applied.widthMode == Homogeneous
  {
    BuiltGrid(st, headers, data, sc);
    TickAppliesModes(Built(st, headers, data, sc), sc);
  }

  /** A frame applies both exposed modes, and no handler changes an exposed mode. */
  lemma TickAppliesModes(st: GridState, sc: Scene)
    requires WellFormed(st)
    ensures var t := Ticked(st, sc);
      t.applied.heightMode == st.exposed.heightMode && t.applied.widthMode == st.exposed.widthMode
  {
    var s3 := FetchRowsStep(FetchColumnsStep(SpacingStep(st, sc), sc));
    var s4 := HeightModeStep(s3, sc);
    var s5 := WidthModeStep(s4, sc);
    var s6 := FixedHeightStep(s5, sc);
    assert s6.exposed.heightMode == s6.applied.heightMode == st.exposed.heightMode;
  }

  // ---------------------------------------------------------------------------------------
  // The controller

  /** The `JSONGrid` component. Its lists are sequences the methods reassign; the vertical
      groups and the text cells are values held in them, and `Model` gathers the fields into
      the state the functions above describe. */
  class JsonGrid {
    var exposed: Settings
    var applied: Settings
    var headers: seq<string>
    var data: seq<seq<string>>
    var horizontal: GridConfig
    var groups: seq<VerticalGroup>
    var textGrid: seq<seq<Cell>>
    var avgWords: seq<int>
    var avgRows: seq<real>
    /** Whether the text cells are the children of the vertical groups. */
    var cellsInGroups: bool
    /** The horizontal group's rect and the prefabs. */
    const scene: Scene

    function Model(): GridState
      reads this
    {
      GridState(exposed, applied, headers, data, horizontal, groups, textGrid, avgWords, avgRows, cellsInGroups)
    }

    /** `Awake`: empty lists, then `BuildGrid` on the parsed table. */
    constructor (knobs: Settings, horizontal: GridConfig, scene: Scene, headers: seq<string>, data: seq<seq<string>>)
      requires Rectangular(headers, data)
      ensures this.scene == scene
      ensures Model() == Built(Awoken(knobs, horizontal), headers, data, scene)
    {
      this.scene := scene;
      exposed, applied := knobs, Unapplied;
      this.headers, this.data, this.horizontal := [], [], horizontal;
      groups, textGrid, avgWords, avgRows := [], [], [], [];
      cellsInGroups := false;
      new;
      assert Model() == Awoken(knobs, horizontal);
      BuildGrid(headers, data);
    }

    /** The horizontal group's `CalculateLayoutInputHorizontal`. */
    method LayoutHorizontal()
      modifies this`horizontal, this`groups
      ensures Model() == HorizontalPass(old(Model()), scene)
    {
      var r := HorizontalPass(Model(), scene);
      horizontal, groups := r.horizontal, r.groups;
    }

    /** Vertical group j's `CalculateLayoutInputHorizontal`. */
    method LayoutVertical(j: nat)
      requires CellsFit(Model()) && j < |groups|
      modifies this`groups, this`textGrid
      ensures TreeOf(Model()) == VerticalPass(TreeOf(old(Model())), j, scene)
    {
      var r := VerticalPass(TreeOf(Model()), j, scene);
      groups, textGrid := r.groups, r.textGrid;
    }

    /** A handler's loop that edits each vertical group and then runs its pass. */
    method EditAndLayoutGroups(e: GroupEdit)
      requires CellsFit(Model()) && (e.BestFitColumn? ==> |e.avgWords| >= |groups|)
      modifies this`groups, this`textGrid
      ensures TreeOf(Model()) == Swept(TreeOf(old(Model())), e, |old(groups)|, scene)
    {
      ghost var before := TreeOf(Model());
      SweptNone(before, e, scene);
      var j := 0;
      while j < |groups|
        invariant 0 <= j <= |groups| == |before.groups|
        invariant TreeOf(Model()) == Swept(before, e, j, scene)
      {
        EditAndLayoutGroup(e, j, before);
        j := j + 1;
      }
    }

    /** One turn of that loop: group j edited, then its pass. */
    method EditAndLayoutGroup(e: GroupEdit, j: nat, ghost before: Tree)
      requires Fits(before) && j < |before.groups| && (e.BestFitColumn? ==> |e.avgWords| >= |before.groups|)
      requires TreeOf(Model()) == Swept(before, e, j, scene)
      modifies this`groups, this`textGrid
      ensures TreeOf(Model()) == Swept(before, e, j + 1, scene)
    {
      groups := groups[j := Edit(groups[j], e, j)];
      LayoutVertical(j);
      SweptStep(before, e, j, scene);
    }

    /** A handler's loop over the vertical groups. */
    method EditVerticalGroups(e: GroupEdit)
      requires e.BestFitColumn? ==> |e.avgWords| >= |groups|
      modifies this`groups
      ensures groups == EditGroups(old(groups), e, |old(groups)|)
    {
      ghost var before := groups;
      var j := 0;
      while j < |groups|
        invariant 0 <= j <= |groups| == |before|
        invariant groups == EditGroups(before, e, j)
      {
        groups := groups[j := Edit(groups[j], e, j)];
        j := j + 1;
      }
    }

    /** A handler's loop over the cells of text row i. */
    method EditTextRow(i: nat, e: CellEdit)
      requires i < |textGrid|
      modifies this`textGrid
      ensures textGrid == old(textGrid)[i := EditRow(old(textGrid)[i], e)]
    {
      var row := textGrid[i];
      var k := 0;
      while k < |row|
        invariant 0 <= k <= |row| == |old(textGrid)[i]|
        invariant forall m :: 0 <= m < |row| ==>
                    row[m] == if m < k then EditCell(old(textGrid)[i][m], e) else old(textGrid)[i][m]
      {
        row := row[k := EditCell(row[k], e)];
        k := k + 1;
      }
      assert row == EditRow(old(textGrid)[i], e);
      textGrid := textGrid[i := row];
    }

    /** `AdjustRowSpacing`. */
    method AdjustRowSpacing()
      requires CellsFit(Model())
      modifies this`applied, this`exposed, this`groups, this`horizontal, this`textGrid
      ensures Model() == SpacingAdjusted(old(Model()), scene)
    {
      applied := applied.(spacing := exposed.spacing);
      EditAndLayoutGroups(Respace(exposed.spacing.y));
      ghost var p := Model();
      if exposed.spacing.x < 0.0 {
        exposed := exposed.(spacing := exposed.spacing.(x := 0.0));
      }
      horizontal := horizontal.(spacing := Vec2(exposed.spacing.x, horizontal.spacing.y));
      assert Model() == p.(exposed := exposed, horizontal := horizontal);
      LayoutHorizontal();
    }

    /** `ReAdjustShowingColumns`. */
    method ReAdjustShowingColumns()
      modifies this`applied, this`exposed, this`groups, this`horizontal
      ensures Model() == ColumnsReadjusted(old(Model()), scene)
    {
      applied := applied.(fetchColumns := exposed.fetchColumns);
      if exposed.fetchColumns > MaxShownColumns {
        exposed := exposed.(fetchColumns := MaxShownColumns);
      }
      horizontal := horizontal.(columns := applied.fetchColumns);
      exposed := exposed.(fetchColumns := if exposed.fetchColumns > |groups| then |groups| else exposed.fetchColumns);
      exposed := exposed.(fetchColumns := if exposed.fetchColumns < 0 then 0 else exposed.fetchColumns);
      assert exposed.fetchColumns == ClampCount(applied.fetchColumns, MaxShownColumns, |groups|);
      ghost var st1 := Model();
      if 0 <= applied.fetchColumns <= |groups| {
        EditVerticalGroups(Show(applied.fetchColumns));
        assert Model() == st1.(groups := groups);
        LayoutHorizontal();
      }
    }

    /** `ReAdjustShowingRows`. */
    method ReAdjustShowingRows()
      modifies this`applied, this`exposed, this`horizontal, this`textGrid
      ensures Model() == RowsReadjusted(old(Model()))
    {
      applied := applied.(fetchRows := exposed.fetchRows);
      if exposed.fetchRows > MaxShownRows {
        exposed := exposed.(fetchRows := MaxShownRows);
      }
      horizontal := horizontal.(rows := applied.fetchRows);
      exposed := exposed.(fetchRows := if exposed.fetchRows > |textGrid| then |textGrid| else exposed.fetchRows);
      exposed := exposed.(fetchRows := if exposed.fetchRows < 0 then 0 else exposed.fetchRows);
      if 0 <= applied.fetchRows <= |textGrid| {
        ShowDataRows(applied.fetchRows);
      }
    }

    /** The showing loop of `ReAdjustShowingRows`: data row i is shown iff i <= shown. */
    method ShowDataRows(shown: int)
      modifies this`textGrid
      ensures textGrid == ShowRows(old(textGrid), shown, |old(textGrid)|)
    {
      ghost var before := textGrid;
      var i := 1;
      while i < |textGrid|
        invariant |textGrid| == |before|
        invariant 1 <= i && (|before| == 0 || i <= |before|)
        invariant textGrid == ShowRows(before, shown, if |before| == 0 then 0 else i)
      {
        EditTextRow(i, Activate(i <= shown));
        i := i + 1;
      }
    }

    /** `SetHomogeneousColumnWidth(val)`. */
    method SetHomogeneousColumnWidth(val: bool)
      modifies this`exposed, this`groups, this`horizontal
      ensures Model() == HomogeneousWidth(old(Model()), val, scene)
    {
      horizontal := horizontal.(uniqueX := false);
      exposed := exposed.(fixedWidth := horizontal.cellSize.x);
      EditVerticalGroups(FitColumns(val));
      horizontal := horizontal.(fitX := val);
      assert Model() == old(Model()).(exposed := exposed, groups := groups, horizontal := horizontal);
      LayoutHorizontal();
    }

    /** `SetHomogeneousRowHeight(val)`. */
    method SetHomogeneousRowHeight(val: bool)
      requires CellsFit(Model())
      modifies this`exposed, this`groups, this`horizontal, this`textGrid
      ensures Model() == HomogeneousHeight(old(Model()), val, scene)
    {
      EditVerticalGroups(ClearUniqueY);
      horizontal := horizontal.(uniqueX := false);
      exposed := exposed.(fixedHeight := horizontal.cellSize.y);
      ghost var cleared := TreeOf(Model());
      assert cleared == Tree(EditGroups(old(groups), ClearUniqueY, |old(groups)|), old(textGrid), cellsInGroups);
      EditAndLayoutGroups(FitRows(val));
      ghost var swept := Swept(cleared, FitRows(val), |old(groups)|, scene);
      horizontal := horizontal.(fitY := val);
      assert Model() == old(Model()).(groups := swept.groups, textGrid := swept.textGrid,
                                      horizontal := old(horizontal).(uniqueX := false, fitY := val),
                                      exposed := old(exposed).(fixedHeight := old(horizontal).cellSize.y));
      LayoutHorizontal();
    }

    /** `SetFixedValues`. */
    method SetFixedValues()
      requires CellsFit(Model())
      modifies this`groups, this`horizontal, this`textGrid
      ensures Model() == FixedApplied(old(Model()), scene)
    {
      EditVerticalGroups(ClearUniqueY);
      SetFixedSizes();
      if exposed.heightMode == Fix {
        EditAndLayoutGroups(Keep);
      }
      LayoutHorizontal();
    }

    /** The horizontal group's settings as `SetFixedValues` writes them, before its loop over
        the vertical groups. */
    method SetFixedSizes()
      modifies this`horizontal
      ensures horizontal == FixedSettings(old(horizontal), exposed)
    {
      horizontal := horizontal.(uniqueX := false);
      if exposed.heightMode == Fix {
        horizontal := horizontal.(fitY := false);
        if exposed.widthMode == Fix {
          horizontal := horizontal.(fitX := false);
          horizontal := horizontal.(cellSize := Vec2(exposed.fixedWidth, exposed.fixedHeight));
        } else {
          horizontal := horizontal.(fitX := true);
          horizontal := horizontal.(cellSize := Vec2(horizontal.cellSize.x, exposed.fixedHeight));
        }
      } else if exposed.widthMode == Fix {
        horizontal := horizontal.(fitX := false);
        horizontal := horizontal.(fitY := true);
        horizontal := horizontal.(cellSize := Vec2(exposed.fixedWidth, horizontal.cellSize.y));
      }
    }

    /** `BestFitColumnWidth`. */
    method BestFitColumnWidth()
      requires WellFormed(Model())
      modifies this`groups, this`horizontal, this`textGrid
      ensures Model() == BestFitWidths(old(Model()), scene)
    {
      horizontal := horizontal.(fitX := false);
      horizontal := horizontal.(uniqueX := true);
      EditAndLayoutGroups(BestFitColumn(avgWords));
      LayoutHorizontal();
    }

    /** The inner loops of `BestFitRowsHeight` for one group of cell width w: every data cell
        gets width w and its row's best-fit height. */
    method SizeDataRows(w: real)
      requires |textGrid| <= |avgRows|
      modifies this`textGrid
      ensures textGrid == SizedRows(old(textGrid), w, avgRows, |old(textGrid)|)
    {
      ghost var before := textGrid;
      var i := 1;
      while i < |textGrid|
        invariant |textGrid| == |before|
        invariant 1 <= i && (|before| == 0 || i <= |before|)
        invariant textGrid == SizedRows(before, w, avgRows, if |before| == 0 then 0 else i)
      {
        EditTextRow(i, Resize(w, BestFitHeight(avgRows[i])));
        i := i + 1;
      }
    }

    /** `BestFitRowsHeight`. */
    method BestFitRowsHeight()
      requires WellFormed(Model())
      modifies this`groups, this`horizontal, this`textGrid
      ensures Model() == BestFitHeights(old(Model()), scene)
    {
      horizontal := horizontal.(fitY := false);
      SizeRowsPerGroup();
      LayoutHorizontal();
    }

    /** The group loop of `BestFitRowsHeight`: each group gets unique heights, resizes every data
        cell to its own cell width when the shown-row count is valid, and runs its pass. */
    method SizeRowsPerGroup()
      requires WellFormed(Model())
      modifies this`groups, this`textGrid
      ensures TreeOf(Model()) == RowsSwept(TreeOf(old(Model())), avgRows, RowsSizable(old(Model())), |old(groups)|, scene)
    {
      ghost var before := TreeOf(Model());
      RowsSweptNone(before, avgRows, RowsSizable(old(Model())), scene);
      var j := 0;
      while j < |groups|
        invariant 0 <= j <= |groups| == |before.groups|
        invariant TreeOf(Model()) == RowsSwept(before, avgRows, RowsSizable(old(Model())), j, scene)
      {
        SizeRowsForGroup(j, before, RowsSizable(old(Model())));
        j := j + 1;
      }
    }

    /** One turn of that loop, for group j. */
    method SizeRowsForGroup(j: nat, ghost before: Tree, ghost sizing: bool)
      requires Fits(before) && |avgRows| == |before.textGrid| && j < |before.groups|
      requires sizing == (0 <= applied.fetchRows <= |textGrid|)
      requires TreeOf(Model()) == RowsSwept(before, avgRows, sizing, j, scene)
      modifies this`groups, this`textGrid
      ensures TreeOf(Model()) == RowsSwept(before, avgRows, sizing, j + 1, scene)
    {
      ghost var s := TreeOf(Model());
      groups := groups[j := Edit(groups[j], SetUniqueY, j)];
      ghost var s1 := s.(groups := s.groups[j := Edit(s.groups[j], SetUniqueY, j)]);
      assert TreeOf(Model()) == s1;
      if 0 <= applied.fetchRows <= |textGrid| {
        SizeDataRows(groups[j].config.cellSize.x);
      }
      LayoutVertical(j);
      RowsSweptStep(before, avgRows, sizing, j, scene);
    }

    /** `ReSizeHeight`. */
    method ReSizeHeight()
      requires WellFormed(Model())
      modifies this`applied, this`exposed, this`groups, this`horizontal, this`textGrid
      ensures Model() == HeightResized(old(Model()), scene)
    {
      applied := applied.(fixedHeight := exposed.fixedHeight);
      applied := applied.(fixedWidth := exposed.fixedWidth);
      applied := applied.(heightMode := exposed.heightMode);
      match exposed.heightMode
      case Homogeneous => SetHomogeneousRowHeight(true);
      case Fix => SetFixedValues();
      case BestFit => BestFitRowsHeight();
      case Empty =>
    }

    /** `ReSizeWidth`. */
    method ReSizeWidth()
      requires WellFormed(Model())
      modifies this`applied, this`exposed, this`groups, this`horizontal, this`textGrid
      ensures Model() == WidthResized(old(Model()), scene)
    {
      applied := applied.(fixedWidth := exposed.fixedWidth);
      applied := applied.(fixedHeight := exposed.fixedHeight);
      applied := applied.(widthMode := exposed.widthMode);
      match exposed.widthMode
      case Homogeneous => SetHomogeneousColumnWidth(true);
      case Fix => SetFixedValues();
      case BestFit => BestFitColumnWidth();
      case Empty =>
    }

    /** `LateUpdate`: one frame's dispatch, its seven checks in two halves. */
    method LateUpdate()
      requires WellFormed(Model())
      modifies this`applied, this`exposed, this`groups, this`horizontal, this`textGrid
      ensures Model() == Ticked(old(Model()), scene)
    {
      SyncCounts();
      SyncModes();
    }

    /** The first three checks of `LateUpdate`: spacing, shown columns, shown rows. */
    method SyncCounts()
      requires WellFormed(Model())
      modifies this`applied, this`exposed, this`groups, this`horizontal, this`textGrid
      ensures Model() == FetchRowsStep(FetchColumnsStep(SpacingStep(old(Model()), scene), scene))
    {
      if exposed.spacing != applied.spacing {
        AdjustRowSpacing();
      }
      if exposed.fetchColumns != applied.fetchColumns {
        ReAdjustShowingColumns();
      }
      if exposed.fetchRows != applied.fetchRows {
        ReAdjustShowingRows();
      }
    }

    /** The last four checks of `LateUpdate`: the two modes, then the two fixed sizes in Fix mode. */
    method SyncModes()
      requires WellFormed(Model())
      modifies this`applied, this`exposed, this`groups, this`horizontal, this`textGrid
      ensures Model() == FixedWidthStep(FixedHeightStep(WidthModeStep(HeightModeStep(old(Model()), scene), scene), scene), scene)
    {
      SyncModeChecks();
      SyncFixedChecks();
    }

    /** The two mode checks of `LateUpdate`. */
    method SyncModeChecks()
      requires WellFormed(Model())
      modifies this`applied, this`exposed, this`groups, this`horizontal, this`textGrid
      ensures Model() == WidthModeStep(HeightModeStep(old(Model()), scene), scene)
    {
      if exposed.heightMode != applied.heightMode {
        ReSizeHeight();
      }
      if exposed.widthMode != applied.widthMode {
        ReSizeWidth();
      }
    }

    /** The two Fix-mode size checks of `LateUpdate`. */
    method SyncFixedChecks()
      requires WellFormed(Model())
      modifies this`applied, this`exposed, this`groups, this`horizontal, this`textGrid
      ensures Model() == FixedWidthStep(FixedHeightStep(old(Model()), scene), scene)
    {
      if exposed.fixedHeight != applied.fixedHeight && exposed.heightMode == Fix {
        ReSizeHeight();
      }
      if exposed.fixedWidth != applied.fixedWidth && exposed.widthMode == Fix {
        ReSizeWidth();
      }
    }

    /** `GetAvgLengthRow(row)`: the mean text length of a row, 0 for an empty row. */
    method GetAvgLengthRow(row: nat) returns (t: real)
      requires row < |textGrid|
      ensures t == AvgRow(textGrid[row])
    {
      var cells := textGrid[row];
      t := 0.0;
      var k := 0;
      while k < |cells|
        invariant 0 <= k <= |cells|
        invariant t == TextLength(cells[..k]) as real
      {
        assert cells[..k + 1][..k] == cells[..k];
        t := t + |cells[k].text| as real;
        k := k + 1;
      }
      assert cells[..k] == cells;
      if |cells| != 0 {
        t := t / |cells| as real;
      } else {
        t := 0.0;
      }
    }

    /** `GetAVGLenghtWords(column)`, over as many data rows as the current text grid has. */
    method GetAvgLengthWords(column: nat) returns (k: int)
      requires Rectangular(headers, data) && column < |headers| && |textGrid| <= |data| + 1
      ensures k == AvgLengthWords(headers, data, column, |textGrid|)
    {
      var v := headers[column];
      k := |v|;
      var i := 0;
      while i < |textGrid| - 1
        invariant 0 <= i <= if |textGrid| == 0 then 0 else |textGrid| - 1
        invariant k == |headers[column]| + ColumnLength(data, column, i)
        invariant i == 0 ==> v == headers[column]
      {
        v := data[i][column];
        k := k + |v|;
        i := i + 1;
      }
      if |textGrid| != 0 {
        k := k / |textGrid|;
      } else {
        k := |v|;
      }
    }

    /** `CleanGrid`; the destruction of the old groups is not modelled (they are dropped when
        `CreateVerticalGrids` clears the list). */
    method CleanGrid()
      modifies this`applied, this`groups, this`horizontal
      ensures Model() == Cleaned(old(Model()), scene)
    {
      LayoutHorizontal();
      applied := applied.(heightMode := Empty);
      applied := applied.(widthMode := Empty);
    }

    /** `CreateVerticalGrids(columns, rows)`. */
    method CreateVerticalGrids(columns: nat, rows: nat)
      requires Rectangular(headers, data) && columns <= |headers| && |textGrid| <= |data| + 1
      modifies this
      ensures Model() == VerticalsCreated(old(Model()), columns, rows, scene)
    {
      horizontal := horizontal.(columns := columns);
      horizontal := horizontal.(rows := rows);
      AddColumnGroups(columns, rows);
      ghost var s1 := GroupsReplaced(old(Model()), columns, rows, scene);
      assert Model() == s1;
      if exposed.widthMode == Homogeneous {
        SetHomogeneousColumnWidth(true);
      }
      ghost var s2 := if s1.exposed.widthMode == Homogeneous then HomogeneousWidth(s1, true, scene) else s1;
      assert Model() == s2;
      if exposed.heightMode == Homogeneous {
        SetHomogeneousRowHeight(true);
      }
    }

    /** The loop of `CreateVerticalGrids`: the lists cleared, then per column a fresh group of
        the given rows and one column, and the column's average. */
    method AddColumnGroups(columns: nat, rows: nat)
      requires Rectangular(headers, data) && columns <= |headers| && |textGrid| <= |data| + 1
      modifies this`groups, this`avgWords, this`cellsInGroups
      ensures groups == seq(columns, j => NewGroup(scene, rows))
      ensures avgWords == ColumnAverages(headers, data, columns, |textGrid|)
      ensures !cellsInGroups
    {
      groups := [];
      cellsInGroups := false;
      avgWords := [];
      var i := 0;
      while i < columns
        invariant 0 <= i <= columns
        invariant groups == seq(i, j => NewGroup(scene, rows))
        invariant avgWords == ColumnAverages(headers, data, i, |textGrid|)
        invariant !cellsInGroups
      {
        var avg := GetAvgLengthWords(i);
        avgWords := avgWords + [avg];
        groups := groups + [NewGroup(scene, rows)];
        i := i + 1;
      }
    }

    /** `CreateTextElements(columns, rows)`: each row appended empty, then filled cell by cell,
        then its average recorded. */
    method CreateTextElements(columns: nat, rows: nat)
      requires Rectangular(headers, data) && rows <= |data| && columns <= |headers| && columns == |groups|
      modifies this
      ensures Model() == TextCreated(old(Model()), columns, rows, scene)
    {
      textGrid := [];
      avgRows := [];
      var i := 0;
      while i <= rows
        modifies this`textGrid, this`avgRows
        invariant 0 <= i <= rows + 1
        invariant textGrid == TextRows(headers, data, i, columns, scene)
        invariant avgRows == RowAverages(textGrid)
      {
        textGrid := textGrid + [[]];
        var j := 0;
        while j < columns
          modifies this`textGrid
          invariant 0 <= j <= columns && |textGrid| == i + 1
          invariant textGrid == TextRows(headers, data, i, columns, scene) + [TextRow(headers, data, i, columns, scene)[..j]]
        {
          var cell := if i == 0 then Cell(scene.headerPrefab, headers[j]) else Cell(scene.dataPrefab, data[i - 1][j]);
          assert TextRow(headers, data, i, columns, scene)[..j + 1] == TextRow(headers, data, i, columns, scene)[..j] + [cell];
          textGrid := textGrid[i := textGrid[i] + [cell]];
          j := j + 1;
        }
        assert TextRow(headers, data, i, columns, scene)[..columns] == TextRow(headers, data, i, columns, scene);
        assert TextRows(headers, data, i + 1, columns, scene)
            == TextRows(headers, data, i, columns, scene) + [TextRow(headers, data, i, columns, scene)];
        var avg := GetAvgLengthRow(i);
        avgRows := avgRows + [avg];
        i := i + 1;
      }
      cellsInGroups := true;
    }

    /** `CreateGrid(rows, columns, title)`; the title is not modelled. */
    method CreateGrid(rows: nat, columns: nat)
      requires Rectangular(headers, data) && rows <= |data| && columns <= |headers| && |textGrid| <= |data| + 1
      modifies this
      ensures Model() == TextCreated(VerticalsCreated(old(Model()), columns, rows, scene), columns, rows, scene)
    {
      CreateVerticalGrids(columns, rows);
      CreateTextElements(columns, rows);
    }

    /** `BuildGrid`, given the table its JSON file parses to. */
    method BuildGrid(headers: seq<string>, data: seq<seq<string>>)
      requires Rectangular(headers, data) && |textGrid| <= |data| + 1
      modifies this
      ensures Model() == Built(old(Model()), headers, data, scene)
    {
      this.headers, this.data := headers, data;
      exposed := exposed.(fetchColumns := |headers|);
      exposed := exposed.(fetchRows := |data|);
      ghost var s0 := Model();
      assert s0 == old(Model()).(headers := headers, data := data,
                                 exposed := old(exposed).(fetchColumns := |headers|, fetchRows := |data|));
      CleanGrid();
      CreateGrid(|data|, |headers|);
      assert Model() == TextCreated(VerticalsCreated(Cleaned(s0, scene), |headers|, |data|, scene), |headers|, |data|, scene);
      exposed := exposed.(heightMode := Homogeneous);
      exposed := exposed.(widthMode := Homogeneous);
    }
  }
}
