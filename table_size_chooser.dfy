/**
 * The grid size picker embedded in the default "Table" menu: a grid of
 * cells the pointer hovers over, two number inputs, and the commit of a
 * size through the `onSizeSelect` callback (here: a returned value).
 */
module TableSizeChooser {
  import opened Wrappers
  import opened JsNumber
  import Handles

  /** Fallback for an absent `maxRows`/`maxCols` prop. */
  const DefaultMax: int := 20

  datatype Props = Props(
    maxRows: Option<int>,
    maxCols: Option<int>,
    currentRows: int,
    currentCols: int,
    onSizeSelect: Handles.Callback)

  /** Which of the two inputs a change event comes from. */
  datatype Dimension = Rows | Cols

  function Min(a: int, b: int): int { if a <= b then a else b }
  function Max(a: int, b: int): int { if a >= b then a else b }

  /**
   * The size committed on blur, `Math.max(1, Math.min(parseInt(input, 10), max))`;
   * `NaN` propagates through both.
   */
  function Commit(input: string, max: int): (r: Option<int>)
    ensures r.None? <==> ParseInt(input).None?
    ensures r.Some? ==> 1 <= r.value && (max >= 1 ==> r.value <= max)
    ensures r.Some? && 1 <= ParseInt(input).value <= max ==> r.value == ParseInt(input).value
    ensures r.Some? && ParseInt(input).value > max >= 1 ==> r.value == max
    ensures r.Some? && ParseInt(input).value < 1 ==> r.value == 1
    ensures r.Some? && max < 1 ==> r.value == 1
  {
    match ParseInt(input)
    case None => None
    case Some(n) => Some(Max(1, Min(n, max)))
  }

  datatype Background = Highlighted | Plain
  datatype Border = Dark | Light
  datatype Cell = Cell(background: Background, border: Border)

  /**
   * The look of grid cell (`row`, `col`): highlighted when it lies in the
   * hovered block or in the current size, with a dark border exactly in the
   * current size.
   */
  function CellAt(row: int, col: int, hoveredRow: int, hoveredCol: int,
                  currentRows: int, currentCols: int): (cell: Cell)
    ensures cell.background == Highlighted <==>
              (row <= hoveredRow && col <= hoveredCol) || (row < currentRows && col < currentCols)
    ensures cell.border == Dark <==> row < currentRows && col < currentCols
  {
    Cell(
      if row <= hoveredRow && col <= hoveredCol then Highlighted
      else if row < currentRows && col < currentCols then Highlighted
      else Plain,
      if row < currentRows && col < currentCols then Dark else Light)
  }

  /** The rendered grid: `maxRows` rows of `maxCols` cells each. */
  function Grid(maxRows: nat, maxCols: nat, hoveredRow: int, hoveredCol: int,
                currentRows: int, currentCols: int): (g: seq<seq<Cell>>)
    ensures |g| == maxRows
    ensures forall r :: 0 <= r < maxRows ==> |g[r]| == maxCols
    ensures forall r, c :: 0 <= r < maxRows && 0 <= c < maxCols ==>
              g[r][c] == CellAt(r, c, hoveredRow, hoveredCol, currentRows, currentCols)
  {
    seq(maxRows, r =>
      seq(maxCols, c => CellAt(r, c, hoveredRow, hoveredCol, currentRows, currentCols)))
  }

  /**
   * The highlighted region is closed towards the top-left corner: moving
   * up or left from a highlighted cell stays highlighted.
   */
  lemma HighlightDownwardClosed(row: int, col: int, row': int, col': int,
                                hoveredRow: int, hoveredCol: int,
                                currentRows: int, currentCols: int)
    requires row' <= row && col' <= col
    requires CellAt(row, col, hoveredRow, hoveredCol, currentRows, currentCols).background == Highlighted
    ensures CellAt(row', col', hoveredRow, hoveredCol, currentRows, currentCols).background == Highlighted
  {
  }

  /**
   * Outside the current size, a cell is highlighted exactly when it lies in
   * the hovered block of `hoveredRow + 1` by `hoveredCol + 1` cells, the size
   * a click reports.
   */
  lemma HoverBlockIsClickSize(row: int, col: int, hoveredRow: int, hoveredCol: int,
                              currentRows: int, currentCols: int)
    requires 0 <= row && 0 <= col
    requires !(row < currentRows && col < currentCols)
    ensures (CellAt(row, col, hoveredRow, hoveredCol, currentRows, currentCols).background == Highlighted)
              == (row < hoveredRow + 1 && col < hoveredCol + 1)
  {
  }

  /** One mounted size picker: its props and its four state cells. */
  class Chooser {
    var props: Props
    var hoveredRow: int
    var hoveredCol: int
    var inputRows: string
    var inputCols: string

    /** `maxRows`, 20 when absent. */
    function MaxRows(): int
      reads this`props
    {
      props.maxRows.GetOr(DefaultMax)
    }

    /** `maxCols`, 20 when absent. */
    function MaxCols(): int
      reads this`props
    {
      props.maxCols.GetOr(DefaultMax)
    }

    /** Both input strings parse: neither is ever a string that reads as `NaN`. */
    predicate Valid()
      reads this`inputRows, this`inputCols
    {
      ParseInt(inputRows).Some? && ParseInt(inputCols).Some?
    }

    /** Mounting: hover at the origin, inputs showing the current size. */
    constructor (p: Props)
      ensures Valid()
      ensures props == p
      ensures MaxRows() == p.maxRows.GetOr(DefaultMax) && MaxCols() == p.maxCols.GetOr(DefaultMax)
      ensures hoveredRow == 0 && hoveredCol == 0
      ensures inputRows == IntToString(p.currentRows) && inputCols == IntToString(p.currentCols)
    {
      props := p;
      hoveredRow, hoveredCol := 0, 0;
      var rowsText, colsText := IntToString(p.currentRows), IntToString(p.currentCols);
      ParseIntToString(p.currentRows);
      ParseIntToString(p.currentCols);
      inputRows, inputCols := rowsText, colsText;
    }

    /** The effect body: show the current size in both inputs. */
    method SyncInputs()
      modifies this`inputRows, this`inputCols
      ensures Valid()
      ensures inputRows == IntToString(props.currentRows) && inputCols == IntToString(props.currentCols)
    {
      var rowsText, colsText := IntToString(props.currentRows), IntToString(props.currentCols);
      ParseIntToString(props.currentRows);
      ParseIntToString(props.currentCols);
      inputRows, inputCols := rowsText, colsText;
    }

    /**
     * A re-render with new props. The effect that copies the current size
     * into the inputs runs only when `currentRows` or `currentCols` changed;
     * the hover is left as it was.
     */
    method Rerender(p: Props)
      requires Valid()
      modifies this`props, this`inputRows, this`inputCols
      ensures Valid()
      ensures props == p
      ensures if p.currentRows != old(props.currentRows) || p.currentCols != old(props.currentCols)
              then inputRows == IntToString(p.currentRows) && inputCols == IntToString(p.currentCols)
              else inputRows == old(inputRows) && inputCols == old(inputCols)
    {
      if p.currentRows != props.currentRows || p.currentCols != props.currentCols {
        props := p;
        SyncInputs();
      } else {
        props := p;
      }
    }

    /** The pointer enters cell (`row`, `col`): hover there and show its size in the inputs. */
    method HandleMouseEnter(row: int, col: int)
      requires Valid()
      modifies this`hoveredRow, this`hoveredCol, this`inputRows, this`inputCols
      ensures Valid()
      ensures hoveredRow == row && hoveredCol == col
      ensures inputRows == IntToString(row + 1) && inputCols == IntToString(col + 1)
      ensures ParseInt(inputRows) == Some(row + 1) && ParseInt(inputCols) == Some(col + 1)
    {
      var rowsText, colsText := IntToString(row + 1), IntToString(col + 1);
      ParseIntToString(row + 1);
      ParseIntToString(col + 1);
      hoveredRow, hoveredCol := row, col;
      inputRows, inputCols := rowsText, colsText;
    }

    /** A click on the grid reports the hovered block's size. */
    method HandleClick() returns (rows: int, cols: int)
      ensures rows == hoveredRow + 1 && cols == hoveredCol + 1
      ensures rows >= 1 && cols >= 1 ==>
                forall r, c :: 0 <= r < rows && 0 <= c < cols ==>
                  CellAt(r, c, hoveredRow, hoveredCol, props.currentRows, props.currentCols).background == Highlighted
    {
      rows := hoveredRow + 1;
      cols := hoveredCol + 1;
    }

    /**
     * A change in one input. A value that parses as `NaN` is dropped;
     * otherwise it is stored verbatim and moves that dimension's hover to
     * `min(value - 1, max - 1)`, leaving the other dimension alone.
     */
    method HandleInputChange(dim: Dimension, value: string)
      requires Valid()
      modifies this`hoveredRow, this`hoveredCol, this`inputRows, this`inputCols
      ensures Valid()
      ensures ParseInt(value).None? ==>
                hoveredRow == old(hoveredRow) && hoveredCol == old(hoveredCol) &&
                inputRows == old(inputRows) && inputCols == old(inputCols)
      ensures ParseInt(value).Some? && dim == Rows ==>
                inputRows == value && hoveredRow == Min(ParseInt(value).value - 1, MaxRows() - 1) &&
                hoveredCol == old(hoveredCol) && inputCols == old(inputCols)
      ensures ParseInt(value).Some? && dim == Cols ==>
                inputCols == value && hoveredCol == Min(ParseInt(value).value - 1, MaxCols() - 1) &&
                hoveredRow == old(hoveredRow) && inputRows == old(inputRows)
    {
      var numValue := ParseInt(value);
      if numValue.None? {
        return;
      }
      if dim == Rows {
        inputRows := value;
        hoveredRow := Min(numValue.value - 1, MaxRows() - 1);
      } else {
        inputCols := value;
        hoveredCol := Min(numValue.value - 1, MaxCols() - 1);
      }
    }

    /** The pointer leaves the grid: the hover falls back to the size in the inputs. */
    method HandleMouseLeave()
      requires Valid()
      modifies this`hoveredRow, this`hoveredCol
      ensures Valid()
      ensures Some(hoveredRow + 1) == ParseInt(inputRows) && Some(hoveredCol + 1) == ParseInt(inputCols)
    {
      hoveredRow := ParseInt(inputRows).value - 1;
      hoveredCol := ParseInt(inputCols).value - 1;
    }

    /**
     * The size an input blur commits (200 ms later, unless a focus cancels
     * it): each input clamped into `[1, max]`, never `NaN`.
     */
    method HandleInputBlur() returns (rows: int, cols: int)
      requires Valid()
      ensures Commit(inputRows, MaxRows()) == Some(rows) && Commit(inputCols, MaxCols()) == Some(cols)
      ensures 1 <= rows && (MaxRows() >= 1 ==> rows <= MaxRows())
      ensures 1 <= cols && (MaxCols() >= 1 ==> cols <= MaxCols())
    {
      rows := Commit(inputRows, MaxRows()).value;
      cols := Commit(inputCols, MaxCols()).value;
    }
  }

  /**
   * Hovering a cell and then blurring an input commits that cell's size,
   * clamped to the grid.
   */
  lemma HoverThenCommit(row: int, col: int, maxRows: int, maxCols: int)
    requires 0 <= row < maxRows && 0 <= col < maxCols
    ensures Commit(IntToString(row + 1), maxRows) == Some(row + 1)
    ensures Commit(IntToString(col + 1), maxCols) == Some(col + 1)
  {
    ParseIntToString(row + 1);
    ParseIntToString(col + 1);
  }
}
