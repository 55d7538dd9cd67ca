# JSON grid layout, modelled in Dafny

This project models the two scripts of a Unity UI component that shows a JSON table as a grid.

- `GridLayout` is a layout group. Its layout pass counts its active children and derives a row/column partition from its fit type. It then computes a cell size from the parent rect and places its first children, either on a uniform grid or packed at running offsets.
- `JSONGrid` is the controller. It builds one vertical `GridLayout` per table column under a horizontal `GridLayout`, and one text element per table entry. On every frame it compares its inspector knobs with shadow copies of the values it last applied, and runs the handler of each knob that changed.

Files:

- `layout.dfy`, module `Layout`, models `Assets/Scripts/GridLayout.cs`.
  - Pure functions state the partition (`Partition`), the cell size (`CellSizeFor`, `FitWidth`, `FitHeight`), the positions (`Place`, `Arrange`) and the child lookup (`ChildIndex`).
  - Class `GridLayout` has the script's fields and the host's child list as an array. Its methods run the source's loops and are proved against those functions.
  - Lemmas state what the partition and the positions promise.
- `json_grid.dfy`, module `JsonGrid`, models `Assets/Scripts/JSONGrid.cs`.
  - The controller's state is the `GridState` value: the exposed knobs, their shadow copies, the parsed table, the horizontal group's settings, the vertical groups, the text cells and the two average lists.
  - Every handler is a function of that state (`SpacingAdjusted`, `ColumnsReadjusted`, …). One frame is `Ticked`.
  - Class `JsonGrid` holds the same fields. Its methods run the source's loops and each is proved to produce its handler's function of the old state (`Model()`).
  - Lemmas state what each handler does, that a frame's dispatch settles within two frames, and what a build produces.

Wherever the controller calls the horizontal group's `CalculateLayoutInputHorizontal`, the model applies `Reconfigure` and `Arrange` from `Layout` to the vertical groups' rects. Wherever it calls a vertical group's pass, the model applies `Reconfigure` to that group's settings, with the group's rect as the parent, and `Arrange` to its column of text cells (`VerticalPass`). `GridLayout.CalculateLayoutInputHorizontal` is proved to compute exactly those two functions.

Where the repository's own description of the behaviour and the code disagree, the model follows the code:

- `childRectransform` returns null when either coordinate is negative, not only when both are.
- The shown data rows follow the request as it was before clamping. A request of 25 rows shows 25 rows even though the knob is clamped to 20.

Source behaviour that is kept as written:

- The column averages are divided by the previous build's text-row count, which is 0 on the first build.
- `SetHomogeneousRowHeight` clears the horizontal group's `UniqueX`, not its `UniqueY`.
- `_Spacing` records the spacing before clamping, so a negative horizontal gap makes the handler run again on the next frame.
- The horizontal group gets the unclamped row and column requests.
- The vertical gap is never clamped.
- A fitted cell height subtracts only the bottom padding.
- Packing on a unique axis multiplies the gap by the current column or row and adds the padding again for every child.
- The layout loop visits the first `enableChild()` entries of the child list without looking at their active flags.
- `padding / columns` is a whole-number division that truncates toward zero (`TruncDiv`).

## Model

| member | source | states |
|---|---|---|
| Layout.ActiveCount | Assets/Scripts/GridLayout.cs:81-89 | The active count is at most the list length, and equals it exactly when every child is active. |
| Layout.ActiveCountFlagsOnly | Assets/Scripts/GridLayout.cs:81-89 | Two equally long child lists with the same active flags have the same count. |
| Layout.CeilDiv | Assets/Scripts/GridLayout.cs:109 | The exact `CeilToInt(n / (float)d)`. For d > 0 it is the least q with q * d >= n. For d < 0 it satisfies the mirrored bounds. |
| Layout.CeilSqrt | Assets/Scripts/GridLayout.cs:101-103 | The exact `CeilToInt(Sqrt(n))`: the least k with k * k >= n. |
| Layout.Partition | Assets/Scripts/GridLayout.cs:96-118 | The partition step changes only rows, columns and the fit flags. A square-root fit type turns both fit flags on and any other keeps them. |
| Layout.TruncDivRemainder | Assets/Scripts/GridLayout.cs:126 | Integer `/` on the padding truncates toward zero. The remainder has the dividend's sign and is smaller than the divisor in size. |
| Layout.TruncDivExact | Assets/Scripts/GridLayout.cs:126 | When the divisor divides the padding, the whole-number share times the divisor gives the padding back. |
| Layout.TruncDiv | Assets/Scripts/GridLayout.cs:126 | The quotient is non-negative when the signs agree and non-positive when they differ. |
| Layout.FitWidth | Assets/Scripts/GridLayout.cs:126 | columns × width + (columns − 1) × gap + columns × (the truncated left and right padding shares) equals the parent width. |
| Layout.FitHeight | Assets/Scripts/GridLayout.cs:131 | rows × height + (rows − 1) × gap + rows × (the truncated bottom padding share) equals the parent height. The top padding plays no part. |
| Layout.CellSizeFor | Assets/Scripts/GridLayout.cs:120-134 | An axis with no columns (rows) gets 0. An unfitted axis keeps the stored size, and a fitted one gets `FitWidth` (`FitHeight`). |
| Layout.Reconfigure | Assets/Scripts/GridLayout.cs:96-134 | The pass changes only rows, columns, fit flags and cell size. A square-root fit type turns both fit flags on, and any other type keeps them. |
| Layout.UniformPartition | Assets/Scripts/GridLayout.cs:96-104 | Uniform: both fit flags on, rows = columns = the least k with k * k >= the active count. Nothing else changes. |
| Layout.WidthPartition | Assets/Scripts/GridLayout.cs:96-111 | Width: columns = the least k with k * k >= n. Rows = the fewest that hold n children in those columns. Both fit flags on. |
| Layout.HeightPartition | Assets/Scripts/GridLayout.cs:96-118 | Height: rows = the least k with k * k >= n. Columns = the fewest that hold n children in those rows. Both fit flags on. |
| Layout.FixedColumnsPartition | Assets/Scripts/GridLayout.cs:106-111 | FixedColumns with columns > 0: rows = the least r with r * columns >= n. With columns = 0 nothing changes. Columns and fit flags are always kept. |
| Layout.FixedRowsPartition | Assets/Scripts/GridLayout.cs:113-118 | FixedRows with rows > 0: columns = the least c with c * rows >= n. With rows = 0 nothing changes. Rows and fit flags are always kept. |
| Layout.PartitionCovers | Assets/Scripts/GridLayout.cs:96-118 | Whenever the fit type derives the partition from a usable count, rows × columns holds every active child. |
| Layout.OneRowForAll | Assets/Scripts/GridLayout.cs:106-111 | A FixedColumns group given exactly as many columns as active children lays them out in one row. |
| Layout.PlaceNext | Assets/Scripts/GridLayout.cs:139-176 | One loop step places child i at its row, column and running offsets. It extends the placed prefix by one, advances the offsets to child i + 1's, and keeps the loop bound. |
| Layout.PlaceAt | Assets/Scripts/GridLayout.cs:150-176 | A placed child keeps its active flag. On a uniform axis it gets the cell size and the grid position, and on a unique axis it keeps its size and sits at the running offset. |
| Layout.ArrangeKeepsActive | Assets/Scripts/GridLayout.cs:139-148 | The pass never changes an active flag, so the active count it loops to stays the same. |
| Layout.ArrangedWidth | Assets/Scripts/GridLayout.cs:150-176 | A placed child gets the cell width unless the width axis is unique. On a unique axis it keeps its width and sits at the running offset. Children past n are untouched. |
| Layout.ArrangedHeight | Assets/Scripts/GridLayout.cs:150-176 | A placed child gets the cell height unless the height axis is unique. On a unique axis it keeps its height and sits at the running offset. Children past n are untouched. |
| Layout.IndexDecomposition | Assets/Scripts/GridLayout.cs:141-145 | With columns ≠ 0, index i = row × columns + column, and the column is below the column count in size. |
| Layout.RowOf | Assets/Scripts/GridLayout.cs:141-145 | The row is 0 while there are no columns, and not negative for a positive column count. |
| Layout.ColumnOf | Assets/Scripts/GridLayout.cs:141-145 | The column is 0 while there are no columns, and below the column count in size otherwise. |
| Layout.IndexInGrid | Assets/Scripts/GridLayout.cs:139-145 | In a partition that holds n children, every index below n lands in an existing row and column. |
| Layout.DistinctCells | Assets/Scripts/GridLayout.cs:141-145 | Distinct indices get distinct (row, column) cells. |
| Layout.FittedColumnsFillWidth | Assets/Scripts/GridLayout.cs:124-152 | When the column count divides both paddings, the last fitted column ends exactly at the parent width minus the right padding. |
| Layout.FittedColumnsCanOverrun | Assets/Scripts/GridLayout.cs:126 | Truncated padding shares can overrun the parent. Three columns in a 100-wide parent with 1 unit of padding on each side end 2 units past its edge. |
| Layout.GridColumnsDisjoint | Assets/Scripts/GridLayout.cs:152 | On a uniform axis with non-negative cell width and gap, an earlier column ends before a later one starts. |
| Layout.PackedDisjoint | Assets/Scripts/GridLayout.cs:164-167 | On a unique axis with non-negative widths, gap and left padding, each child ends before any later child starts. |
| Layout.OffsetXNonNegative | Assets/Scripts/GridLayout.cs:164-166 | With non-negative widths, gap and left padding, the running x offset never goes below 0. |
| Layout.OffsetYNonNegative | Assets/Scripts/GridLayout.cs:173-175 | With non-negative heights, gap, top padding and column count, the running y offset never goes below 0. |
| Layout.ChildIndex | Assets/Scripts/GridLayout.cs:52-76 | The lookup gives nothing exactly when x < 0 or y < 0. Otherwise every branch reads index x × columns + y. |
| Layout.GridLayout.constructor | Assets/Scripts/GridLayout.cs:14-45 | The group starts with the given settings and child list. |
| Layout.GridLayout.EnableChild | Assets/Scripts/GridLayout.cs:81-89 | The counting loop returns the number of active children, at most the list length. |
| Layout.GridLayout.ChildRectransform | Assets/Scripts/GridLayout.cs:52-76 | Returns null exactly when a coordinate is negative, and otherwise the child at x × columns + y. |
| Layout.GridLayout.CalculateLayoutInputHorizontal | Assets/Scripts/GridLayout.cs:93-179 | The new settings are `Reconfigure` of the old ones for the active count. The child list is `Arrange` of the old list: the first n entries placed, the rest untouched. |
| Layout.GridLayout.PartitionAndSize | Assets/Scripts/GridLayout.cs:96-134 | The settings become `Reconfigure` of the old settings. |
| Layout.GridLayout.DerivePartition | Assets/Scripts/GridLayout.cs:96-119 | The three partition steps give `Partition` of the old settings for the active count. |
| Layout.GridLayout.SizeCells | Assets/Scripts/GridLayout.cs:120-134 | Only the cell size changes, and it becomes `CellSizeFor` the partition. |
| Layout.GridLayout.PlaceChild | Assets/Scripts/GridLayout.cs:141-176 | Child i alone changes, and it is placed by `PlaceAt`. The running offsets advance on each unique axis. |
| Layout.GridLayout.PlaceChildren | Assets/Scripts/GridLayout.cs:135-177 | The position loop leaves the child list equal to `Arrange` of the old list. |
| JsonGrid.HorizontalPass | Assets/Scripts/JSONGrid.cs:155 | The horizontal pass keeps every group's settings and active flag. Only the horizontal settings and the group rects change. |
| JsonGrid.GroupPassed | Assets/Scripts/GridLayout.cs:96-134 | A vertical group's own pass keeps its rect and sets its settings to `Reconfigure` over its active children, with its rect as the parent. |
| JsonGrid.VerticalPass | Assets/Scripts/JSONGrid.cs:367 | Group j's pass changes only group j, to `GroupPassed`. Cells are touched only when they are the groups' children. |
| JsonGrid.VerticalPassColumns | Assets/Scripts/JSONGrid.cs:367 | Group j's pass places its own column of cells by `Arrange` under its new settings, and leaves every other group's column as it was. |
| JsonGrid.VerticalPassCell | Assets/Scripts/JSONGrid.cs:367 | Group j's pass moves only the cells of column j, each to its `Arrange` position. |
| JsonGrid.VerticalPassKeepsCells | Assets/Scripts/JSONGrid.cs:367 | A group's pass keeps every cell's text and active flag. |
| JsonGrid.Swept | Assets/Scripts/JSONGrid.cs:363-368 | The state after a loop that edits group j and runs its pass, for j below k: only those groups and their columns change. |
| JsonGrid.SweptGroup | Assets/Scripts/JSONGrid.cs:363-368 | After the loop's turns for groups below k, a visited group is edited and reconfigured with its column placed, and any other group and its column are as they were. |
| JsonGrid.SweptKeepsCells | Assets/Scripts/JSONGrid.cs:363-368 | Such a loop keeps every cell's text and active flag. |
| JsonGrid.SweptNone | Assets/Scripts/JSONGrid.cs:363-368 | Before the loop's first turn nothing has changed. |
| JsonGrid.SweptStep | Assets/Scripts/JSONGrid.cs:363-368 | One more turn, edit then pass, extends the loop's result by exactly one group. |
| JsonGrid.SweptRects | Assets/Scripts/JSONGrid.cs:363-368 | After the full loop the groups' rects are the edited ones: a group's own pass never changes its rect. |
| JsonGrid.ClampCount | Assets/Scripts/JSONGrid.cs:288-295 | The clamped knob is between 0 and both caps. It equals the request exactly when the request is already in range. |
| JsonGrid.ClampCountIdempotent | Assets/Scripts/JSONGrid.cs:288-295 | Clamping a clamped count changes nothing. |
| JsonGrid.ClampSpacing | Assets/Scripts/JSONGrid.cs:506-509 | The horizontal gap is raised to 0 and the vertical gap is kept. The spacing is unchanged exactly when the horizontal gap is not negative. |
| JsonGrid.BestFitWidth | Assets/Scripts/JSONGrid.cs:463 | A best-fit column width is at most 350 and at most avg × 20 + 50, and it is one of the two: the smaller of them. |
| JsonGrid.BestFitHeight | Assets/Scripts/JSONGrid.cs:485 | A best-fit row height is at most 200 and at most avg × 13, and it is one of the two: the smaller of them. |
| JsonGrid.BestFitMonotone | Assets/Scripts/JSONGrid.cs:459-486 | Both best-fit sizes never decrease as the average grows. |
| JsonGrid.TextLengthBound | Assets/Scripts/JSONGrid.cs:416-419 | A row's total text length is at most its cell count times its longest text. |
| JsonGrid.AvgRowBounds | Assets/Scripts/JSONGrid.cs:413-428 | A row's average text length lies between 0 and the length of its longest text. |
| JsonGrid.ColumnLengthBound | Assets/Scripts/JSONGrid.cs:438-442 | A column total over m rows is at most m times a bound on each entry. |
| JsonGrid.AvgLengthWordsBound | Assets/Scripts/JSONGrid.cs:434-451 | A column's average lies between 0 and any bound on the header and the entries it averages. |
| JsonGrid.ShownGroupsCount | Assets/Scripts/JSONGrid.cs:325-331 | The showing loop makes group j active exactly when j < shown. Exactly `shown` groups are then active. |
| JsonGrid.ShownRows | Assets/Scripts/JSONGrid.cs:297-308 | After the row loop a data cell is active exactly when its row is at most `shown`. The header row, the texts and the rest of each rect are kept. |
| JsonGrid.SizedRowsHeights | Assets/Scripts/JSONGrid.cs:479-486 | After resizing, every data cell has the given width and its row's best-fit height, at most 200. The header row is kept. |
| JsonGrid.SizedRows | Assets/Scripts/JSONGrid.cs:479-486 | Resizing keeps every cell's text and active flag and the shape of the grid. |
| JsonGrid.TextRowsContents | Assets/Scripts/JSONGrid.cs:216-240 | The built text grid has rows + 1 rows of `columns` cells. Row 0 holds the headers with the header prefab. Row i holds data row i − 1 with the data prefab. |
| JsonGrid.SpacingAdjusted | Assets/Scripts/JSONGrid.cs:497-512 | `_Spacing` gets the knob before clamping, and the knob gets the clamped spacing. The table, the averages and the group and row counts are kept. The text cells keep their texts and active flags, and while they are not yet the groups' children they are not touched at all. |
| JsonGrid.ColumnsReadjusted | Assets/Scripts/JSONGrid.cs:315-335 | `_showingColumns` gets the request, and the knob gets the request clamped to 15 and to the group count. The text cells are not touched and the rest of the shape is kept. |
| JsonGrid.RowsReadjusted | Assets/Scripts/JSONGrid.cs:288-310 | `_showingRows` gets the request, and the knob gets the request clamped to 20 and to the text-row count. The rest of the shape is kept. |
| JsonGrid.HomogeneousWidth | Assets/Scripts/JSONGrid.cs:340-350 | FixedWidth takes the current cell width. No shadow copy changes, the text cells are not touched and the shape is kept. |
| JsonGrid.HomogeneousHeight | Assets/Scripts/JSONGrid.cs:355-371 | FixedHeight takes the current cell height. No shadow copy changes and the shape is kept. The text cells keep their texts and active flags, and are not touched while they are not the groups' children. |
| JsonGrid.FixedSettings | Assets/Scripts/JSONGrid.cs:381-403 | `UniqueX` is cleared. In Fix height mode FitY is off and the cell height is the fixed height, and FitX is on unless the width mode is Fix too. In Fix width mode FitX is off and the cell width is the fixed width. Nothing else changes, and with neither mode Fix only `UniqueX` changes. |
| JsonGrid.FixedApplied | Assets/Scripts/JSONGrid.cs:375-407 | Neither the knobs nor their shadow copies change, and the shape is kept. The text cells keep their texts and active flags, and are not touched unless the height mode is Fix and they are the groups' children. |
| JsonGrid.BestFitWidths | Assets/Scripts/JSONGrid.cs:455-468 | Neither the knobs nor their shadow copies change, and the shape is kept. The text cells keep their texts and active flags, and are not touched while they are not the groups' children. |
| JsonGrid.BestFitHeights | Assets/Scripts/JSONGrid.cs:472-491 | Neither the knobs nor their shadow copies change, the shape is kept, and the text cells keep their texts and active flags. |
| JsonGrid.Resized | Assets/Scripts/JSONGrid.cs:479-486 | With sizing, a data cell gets the width and its row's best-fit height, and every cell keeps its text and active flag. |
| JsonGrid.RowsSwept | Assets/Scripts/JSONGrid.cs:474-490 | The state after the best-fit group loop's turns for the groups below k has as many groups and cells as before. |
| JsonGrid.RowsSweptNone | Assets/Scripts/JSONGrid.cs:474-490 | Before the group loop's first turn nothing has changed. |
| JsonGrid.TurnInput | Assets/Scripts/JSONGrid.cs:476-486 | What group j's pass finds in its turn: only group j changed, and made unique in height. The cells keep their texts and active flags, and without a valid shown-row count they are not touched. |
| JsonGrid.ResizedTwice | Assets/Scripts/JSONGrid.cs:479-486 | Resizing a cell a second time leaves only the second width. |
| JsonGrid.RowsTurnFinds | Assets/Scripts/JSONGrid.cs:476-489 | The turn for group k finds the group untouched and its column resized to its own cell width. |
| JsonGrid.RowsSweptStep | Assets/Scripts/JSONGrid.cs:476-489 | One more turn extends the loop's result by exactly one group. |
| JsonGrid.RowsTurnResizes | Assets/Scripts/JSONGrid.cs:478-486 | Group k's turn resizes every cell to group k's cell width before the pass. |
| JsonGrid.RowsCellNext | Assets/Scripts/JSONGrid.cs:476-489 | Outside column k, a cell one turn further on is the cell as it was, resized to group k's cell width. |
| JsonGrid.RowsSweptKeepsCells | Assets/Scripts/JSONGrid.cs:474-490 | The group loop keeps every cell's text and active flag. |
| JsonGrid.RowsSweptUnlinked | Assets/Scripts/JSONGrid.cs:474-490 | Without resizing and with the cells not yet in the groups, the loop leaves the cells alone. |
| JsonGrid.HeightResized | Assets/Scripts/JSONGrid.cs:249-263 | Both fixed sizes and the height mode are recorded. Only Homogeneous mode rewrites FixedHeight. |
| JsonGrid.WidthResized | Assets/Scripts/JSONGrid.cs:268-283 | Both fixed sizes and the width mode are recorded. Only Homogeneous mode rewrites FixedWidth. |
| JsonGrid.SpacingStep | Assets/Scripts/JSONGrid.cs:79-81 | The spacing check touches only the spacing. Afterwards the spacing is settled or already clamped. |
| JsonGrid.FetchColumnsStep | Assets/Scripts/JSONGrid.cs:82-85 | The column check touches only the column counters. Afterwards they are settled or the knob is a fixed point of its clamp. |
| JsonGrid.FetchRowsStep | Assets/Scripts/JSONGrid.cs:86-89 | The row check touches only the row counters. Afterwards they are settled or the knob is a fixed point of its clamp. |
| JsonGrid.HeightModeStep | Assets/Scripts/JSONGrid.cs:90-93 | After the height-mode check the height mode is settled. Only the fixed sizes and that mode are recorded. |
| JsonGrid.WidthModeStep | Assets/Scripts/JSONGrid.cs:94-97 | After the width-mode check the width mode is settled. Only the fixed sizes and that mode are recorded. |
| JsonGrid.FixedHeightStep | Assets/Scripts/JSONGrid.cs:99-102 | After the fixed-height check, a Fix-mode FixedHeight equals its shadow copy. No knob changes. |
| JsonGrid.FixedWidthStep | Assets/Scripts/JSONGrid.cs:104-107 | After the fixed-width check, a Fix-mode FixedWidth equals its shadow copy. No knob changes. |
| JsonGrid.Ticked | Assets/Scripts/JSONGrid.cs:77-108 | A frame keeps the table, the averages and the group and row counts. |
| JsonGrid.SettledIsQuiet | Assets/Scripts/JSONGrid.cs:77-108 | When every knob equals its shadow copy, a frame changes nothing. |
| JsonGrid.FirstTickCalms | Assets/Scripts/JSONGrid.cs:77-108 | After one frame the modes and Fix-mode sizes are settled. The spacing and both counts are settled or at values their clamps keep. |
| JsonGrid.CalmTickSettles | Assets/Scripts/JSONGrid.cs:77-108 | From such a state one more frame settles every knob. |
| JsonGrid.TwoTicksSettle | Assets/Scripts/JSONGrid.cs:77-108 | Whatever the knobs hold, after two frames with no outside change `LateUpdate` has nothing left to do. |
| JsonGrid.ColumnsShown | Assets/Scripts/JSONGrid.cs:315-335 | For a valid request, group j is active exactly when j < request, and exactly that many are active. The horizontal group is laid out with the request as its column count. |
| JsonGrid.ColumnsIgnored | Assets/Scripts/JSONGrid.cs:320-333 | An out-of-range request changes no group. It only reaches the horizontal group's column count. |
| JsonGrid.ShownColumnsInOneRow | Assets/Scripts/JSONGrid.cs:315-335 | In a FixedColumns horizontal group, showing s > 0 columns gives one row of s columns. |
| JsonGrid.RowsShown | Assets/Scripts/JSONGrid.cs:288-310 | The horizontal group gets the unclamped request, and the knob ends between 0 and both caps. A valid request shows data row i exactly when i <= request and never touches the header row. Any other request changes no cell. |
| JsonGrid.RowsSettleAfterTwo | Assets/Scripts/JSONGrid.cs:288-295 | After two row handlers the knob equals `_showingRows`. |
| JsonGrid.ColumnsSettleAfterTwo | Assets/Scripts/JSONGrid.cs:315-322 | After two column handlers the knob equals `_showingColumns`. |
| JsonGrid.SpacingApplied | Assets/Scripts/JSONGrid.cs:497-512 | Every group gets the knob's vertical gap and keeps its horizontal gap. Its own pass then reconfigures it with FitY off, so FitY ends true only for a square-root fit type, and its column of text cells is placed by the new settings. The cells keep their texts and active flags. The horizontal group gets max(gap, 0) and keeps its vertical gap. The knob differs from `_Spacing` afterwards exactly when its horizontal gap was negative. |
| JsonGrid.HomogeneousWidthShared | Assets/Scripts/JSONGrid.cs:340-350 | Every group and the horizontal group fit widths as asked, with no unique widths. Every shown group is one cell wide, and a fitted cell shares the parent width. |
| JsonGrid.HomogeneousHeightShared | Assets/Scripts/JSONGrid.cs:355-371 | Every group loses unique heights and fits heights as asked, or always for a square-root fit type, and its column of cells is placed by its pass. In the horizontal group `UniqueX` is cleared while `UniqueY` is kept, and every shown group is one cell wide. The cells keep their texts and active flags. |
| JsonGrid.HomogeneousGroupShared | Assets/Scripts/JSONGrid.cs:355-371 | Group j alone: unique heights off, fit as asked or square-root fitted, its column placed by its pass, and one cell wide when shown. |
| JsonGrid.FixedSizesApplied | Assets/Scripts/JSONGrid.cs:375-407 | With both modes Fix and a non-square fit type, neither horizontal axis is fitted. An axis with cells takes the fixed size, and every shown group is exactly one cell wide. Every group loses unique heights, is reconfigured by its own pass, and places its column of cells. |
| JsonGrid.FixedGroupApplied | Assets/Scripts/JSONGrid.cs:375-407 | Group j alone: the fixed width when shown, reconfigured by its pass without unique heights, and its column placed. |
| JsonGrid.SquareFitOverridesFixed | Assets/Scripts/JSONGrid.cs:375-407 | With a square-root fit type the pass fits both axes again, so the fixed width is replaced by the shared parent width. |
| JsonGrid.BestFitColumnsSized | Assets/Scripts/JSONGrid.cs:455-468 | Widths stay unique. Every group is `BestFitWidth` of its column average wide (at most 350) with its active flag kept. Its pass reconfigures it with that width and its old cell height as the parent size, and places its column of cells. |
| JsonGrid.BestFitColumnRect | Assets/Scripts/JSONGrid.cs:460-467 | Group j alone: the horizontal pass keeps the best-fit width the loop gave it and its active flag. |
| JsonGrid.BestFitColumnConfig | Assets/Scripts/JSONGrid.cs:460-465 | Group j alone: its pass reconfigures it with its new width and old cell height as the parent size. |
| JsonGrid.BestFitColumnChildren | Assets/Scripts/JSONGrid.cs:464 | Group j alone: its column of cells is placed by its new settings. |
| JsonGrid.BestFitColumnsPacked | Assets/Scripts/JSONGrid.cs:455-468 | Take non-negative averages, gap and left padding. Then of two shown best-fit groups, the earlier ends before the later starts. |
| JsonGrid.BestFitRowsSized | Assets/Scripts/JSONGrid.cs:472-491 | Every group gets unique heights, and the cells keep their texts and active flags. With a valid shown-row count and at least one group, every data cell gets its row's best-fit height (at most 200). Its width is the last group's cell width from before that group's pass, except that a shown cell of the last column takes the width the pass computes, unless that group keeps unique widths. With an invalid count and cells not yet in the groups, no cell changes. |
| JsonGrid.BestFitRowsUnique | Assets/Scripts/JSONGrid.cs:474-477 | Every group ends with unique heights. |
| JsonGrid.BestFitRowsUntouched | Assets/Scripts/JSONGrid.cs:472-491 | With an invalid shown-row count and the cells not yet in the groups, no cell changes. |
| JsonGrid.BestFitCellsSized | Assets/Scripts/JSONGrid.cs:476-489 | With a valid shown-row count and a group, every data cell satisfies `CellBestFitted`: its row's best-fit height, and the width `BestFitRowsSized` states. |
| JsonGrid.RowsCellSized | Assets/Scripts/JSONGrid.cs:476-489 | After k turns with sizing, a data cell has its row's best-fit height and group k − 1's old cell width, except a shown cell of column k − 1, which takes that group's new cell width unless it keeps unique widths. |
| JsonGrid.Cleaned | Assets/Scripts/JSONGrid.cs:149-158 | Cleaning sets both shadow modes to Empty and keeps the knobs, the text cells and the shape. |
| JsonGrid.NewGroup | Assets/Scripts/JSONGrid.cs:194-199 | A new group is the prefab with the requested rows and one column. |
| JsonGrid.VerticalsCreated | Assets/Scripts/JSONGrid.cs:188-207 | There is one group per column, and the column averages are taken over the current text grid. The text grid and the shadow copies are kept, and only the fixed sizes among the knobs may change. |
| JsonGrid.TextCreated | Assets/Scripts/JSONGrid.cs:213-243 | Only the text grid and the row averages are replaced, with one average per row. |
| JsonGrid.Built | Assets/Scripts/JSONGrid.cs:132-144 | A build leaves one average per group and one per text row. |
| JsonGrid.BuiltGrid | Assets/Scripts/JSONGrid.cs:132-144 | There is one group and one average per header. Text row 0 holds the headers and row i holds data row i − 1, each with its average. The counters hold the table size, and both exposed modes are Homogeneous while both shadow modes are Empty. |
| JsonGrid.FirstBuildAverages | Assets/Scripts/JSONGrid.cs:188-200 | On the first build the text grid is still empty, so each column average is just its header's length. |
| JsonGrid.BuildThenTickHomogeneous | Assets/Scripts/JSONGrid.cs:132-158 | The frame after a build applies Homogeneous mode on both axes. |
| JsonGrid.TickAppliesModes | Assets/Scripts/JSONGrid.cs:90-97 | After a frame both shadow modes equal the exposed modes. |
| JsonGrid.JsonGrid.constructor | Assets/Scripts/JSONGrid.cs:68-75 | `Awake` is a build from empty lists and default shadow copies. |
| JsonGrid.JsonGrid.LayoutHorizontal | Assets/Scripts/JSONGrid.cs:155 | The state becomes `HorizontalPass` of the old state. |
| JsonGrid.JsonGrid.LayoutVertical | Assets/Scripts/JSONGrid.cs:367 | The groups and cells become `VerticalPass` of the old ones. |
| JsonGrid.JsonGrid.EditAndLayoutGroups | Assets/Scripts/JSONGrid.cs:363-368 | The loop leaves the groups and cells as `Swept` over every group. |
| JsonGrid.JsonGrid.EditAndLayoutGroup | Assets/Scripts/JSONGrid.cs:365-367 | One turn moves the loop's result from k groups to k + 1. |
| JsonGrid.JsonGrid.EditVerticalGroups | Assets/Scripts/JSONGrid.cs:325-331 | The loop over the groups applies the handler's edit to every group. |
| JsonGrid.JsonGrid.EditTextRow | Assets/Scripts/JSONGrid.cs:300-307 | The loop over one text row applies the edit to every cell of that row. The other rows are untouched. |
| JsonGrid.JsonGrid.AdjustRowSpacing | Assets/Scripts/JSONGrid.cs:497-512 | The state becomes `SpacingAdjusted` of the old state. |
| JsonGrid.JsonGrid.ReAdjustShowingColumns | Assets/Scripts/JSONGrid.cs:315-335 | The state becomes `ColumnsReadjusted` of the old state. |
| JsonGrid.JsonGrid.ReAdjustShowingRows | Assets/Scripts/JSONGrid.cs:288-310 | The state becomes `RowsReadjusted` of the old state. |
| JsonGrid.JsonGrid.ShowDataRows | Assets/Scripts/JSONGrid.cs:297-308 | The row loop leaves `ShowRows` of the old text grid. |
| JsonGrid.JsonGrid.SetHomogeneousColumnWidth | Assets/Scripts/JSONGrid.cs:340-350 | The state becomes `HomogeneousWidth` of the old state. |
| JsonGrid.JsonGrid.SetHomogeneousRowHeight | Assets/Scripts/JSONGrid.cs:355-371 | The state becomes `HomogeneousHeight` of the old state. |
| JsonGrid.JsonGrid.SetFixedValues | Assets/Scripts/JSONGrid.cs:375-407 | The state becomes `FixedApplied` of the old state. |
| JsonGrid.JsonGrid.SetFixedSizes | Assets/Scripts/JSONGrid.cs:381-403 | The horizontal settings become `FixedSettings` of the old ones. |
| JsonGrid.JsonGrid.BestFitColumnWidth | Assets/Scripts/JSONGrid.cs:455-468 | The state becomes `BestFitWidths` of the old state. |
| JsonGrid.JsonGrid.SizeDataRows | Assets/Scripts/JSONGrid.cs:479-486 | The resizing loop leaves `SizedRows` of the old text grid. |
| JsonGrid.JsonGrid.BestFitRowsHeight | Assets/Scripts/JSONGrid.cs:472-491 | The state becomes `BestFitHeights` of the old state. |
| JsonGrid.JsonGrid.SizeRowsPerGroup | Assets/Scripts/JSONGrid.cs:474-490 | The group loop leaves `RowsSwept` over every group: each group made unique in height, the data cells resized to its cell width when the shown-row count is valid, then its pass. |
| JsonGrid.JsonGrid.SizeRowsForGroup | Assets/Scripts/JSONGrid.cs:476-489 | One turn moves the loop's result from k groups to k + 1. |
| JsonGrid.JsonGrid.ReSizeHeight | Assets/Scripts/JSONGrid.cs:249-263 | The state becomes `HeightResized` of the old state. |
| JsonGrid.JsonGrid.ReSizeWidth | Assets/Scripts/JSONGrid.cs:268-283 | The state becomes `WidthResized` of the old state. |
| JsonGrid.JsonGrid.LateUpdate | Assets/Scripts/JSONGrid.cs:77-108 | The state becomes `Ticked` of the old state. |
| JsonGrid.JsonGrid.SyncCounts | Assets/Scripts/JSONGrid.cs:79-89 | The spacing, column and row checks run in order. |
| JsonGrid.JsonGrid.SyncModes | Assets/Scripts/JSONGrid.cs:90-107 | The mode checks and the Fix-mode size checks run in order. |
| JsonGrid.JsonGrid.SyncModeChecks | Assets/Scripts/JSONGrid.cs:90-97 | The two mode checks run in order: the state becomes `WidthModeStep` of `HeightModeStep` of the old state. |
| JsonGrid.JsonGrid.SyncFixedChecks | Assets/Scripts/JSONGrid.cs:99-107 | The two Fix-mode size checks run in order: the state becomes `FixedWidthStep` of `FixedHeightStep` of the old state. |
| JsonGrid.JsonGrid.GetAvgLengthRow | Assets/Scripts/JSONGrid.cs:413-428 | The accumulating loop returns the row's mean text length, or 0 for an empty row. |
| JsonGrid.JsonGrid.GetAvgLengthWords | Assets/Scripts/JSONGrid.cs:434-451 | For n text rows the loop returns the header length when n = 0. Otherwise it returns (header length + the first n − 1 entries' lengths) divided by n in whole units. |
| JsonGrid.JsonGrid.CleanGrid | Assets/Scripts/JSONGrid.cs:149-158 | The state becomes `Cleaned` of the old state. |
| JsonGrid.JsonGrid.CreateVerticalGrids | Assets/Scripts/JSONGrid.cs:188-207 | The state becomes `VerticalsCreated` of the old state. |
| JsonGrid.JsonGrid.AddColumnGroups | Assets/Scripts/JSONGrid.cs:191-200 | The lists are rebuilt with one new group and one column average per column. |
| JsonGrid.JsonGrid.CreateTextElements | Assets/Scripts/JSONGrid.cs:213-243 | The state becomes `TextCreated` of the old state. |
| JsonGrid.JsonGrid.CreateGrid | Assets/Scripts/JSONGrid.cs:165-169 | The groups are created, then the text cells. |
| JsonGrid.JsonGrid.BuildGrid | Assets/Scripts/JSONGrid.cs:132-144 | The state becomes `Built` of the old state for the parsed table. |

## Left out

- The engine's own layout rebuilds, which re-run every group's pass whenever its rect or children change, are not modelled. Only the passes the scripts call explicitly are.
- A vertical group's child list is taken to be its column of text cells, header first, in table order, once `CreateTextElements` has parented them, and empty before that. Which of its children are active is read from the cells.
- The child list holds every child, active or not, and the layout loop places its first `enableChild()` entries, as the script's code reads. The engine's `rectChildren` lists only the active children, so the two agree when the active children come first, as the showing loops leave them.
- The vertical groups' padding comes from the vertical prefab and is a fixed part of the scene. No handler changes it.
- Reading and parsing the JSON file (`SerializeJson`, the SimpleJSON node) is not modelled. `BuildGrid` and the constructor take the parsed headers and data rows, and every data row must have an entry for every header.
- JsonGrid.JsonGrid.GetAvgLengthWords: it requires the previous build's text grid to have at most one row more than the new table has data rows. The source would read past the parsed data, and what the JSON library returns there is not part of this model.
- JsonGrid.JsonGrid.CreateTextElements: it requires the requested rows and columns to lie within the table and the group list, where the source would fail on an out-of-range read. It also requires one vertical group per requested column, since cell (i, j) is parented to group j.
- Layout.GridLayout.ChildRectransform: it requires the computed index to lie inside the child list. The source would throw there.
- `LoadTitle`, the title text, text-component lookup and `Debug.LogError` are UI side effects and are not modelled. Cells hold their texts directly, and every prefab is taken to have a text component.
- `Instantiate`, `Destroy` and `GetComponent` are engine object lifetime calls. New groups and cells are values copied from the prefabs. The deferred destruction in `CleanGrid` is not modelled: the old groups leave the model when `CreateVerticalGrids` replaces the list, so the pass in `CleanGrid` still runs over them.
- `Canvas.ForceUpdateCanvases`, `SetLayoutVertical`, and the empty overrides `CalculateLayoutInputVertical` and `SetLayoutHorizontal` are engine calls with no modelled effect.
- The engine fills the child list (`base.CalculateLayoutInputHorizontal`, `rectChildren`), so the child list is a given array. `SetChildAlongAxis` is modelled only as writing a child's position and size, and a `sizeDelta` write as setting a rect's width and height.
- Floating point is not modelled. Sizes and positions are exact reals, and `Mathf.Sqrt`/`Mathf.CeilToInt` are exact integer functions. Unity compares `Vector2` values approximately, while the model compares spacings exactly. The column averages, which the source stores as floats, are whole numbers here, as the integer division that computes them makes them.
- The unused read-only initial-position fields of `GridLayout` have no counterpart.
- JsonGrid.JsonGrid.LateUpdate: its seven checks are split over `SyncCounts` and `SyncModes` (which splits into `SyncModeChecks` and `SyncFixedChecks`), run in the source's order. The contract is still the full frame `Ticked`.
