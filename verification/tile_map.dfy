/** The character grid of a level: normalisation of the raw map rows to a
    ROWS x COLS rectangle, and the row-major scan order over its cells. */
module TileMap {

  /** Filler for short and missing rows. */
  const WallChar: char := 'W'

  function Repeat(ch: char, n: nat): (s: string)
    ensures |s| == n
    ensures forall i :: 0 <= i < n ==> s[i] == ch
  {
    seq(n, _ => ch)
  }

  /** `line.padEnd(COLS, "W").slice(0, COLS)`. */
  function NormalizeRow(line: string, cols: nat): (r: string)
    ensures |r| == cols
    ensures forall c :: 0 <= c < cols ==> r[c] == (if c < |line| then line[c] else WallChar)
  {
    var padded := if |line| < cols then line + Repeat(WallChar, cols - |line|) else line;
    padded[..cols]
  }

  /** The `MAP` built from `RAW_MAP`: exactly `rows` rows, a missing row read
      as the empty string, every row normalised to `cols` characters. */
  function NormalizeMap(raw: seq<string>, cols: nat, rows: nat): (m: seq<string>)
    ensures |m| == rows
    ensures forall r :: 0 <= r < rows ==> |m[r]| == cols
    ensures forall r, c :: 0 <= r < rows && 0 <= c < cols ==>
              m[r][c] == (if r < |raw| && c < |raw[r]| then raw[r][c] else WallChar)
  {
    var m := seq(rows, r requires 0 <= r < rows => NormalizeRow(if r < |raw| then raw[r] else "", cols));
    assert forall r :: 0 <= r < rows ==> m[r] == NormalizeRow(if r < |raw| then raw[r] else "", cols);
    m
  }

  /** A map is rectangular with the given dimensions. */
  predicate IsGrid(m: seq<string>, cols: nat, rows: nat) {
    |m| == rows && forall r :: 0 <= r < |m| ==> |m[r]| == cols
  }

  /** Normalising an already normalised map changes nothing. */
  lemma NormalizeMapIdempotent(raw: seq<string>, cols: nat, rows: nat)
    ensures IsGrid(NormalizeMap(raw, cols, rows), cols, rows)
    ensures NormalizeMap(NormalizeMap(raw, cols, rows), cols, rows) == NormalizeMap(raw, cols, rows)
  {
    var m := NormalizeMap(raw, cols, rows);
    var m2 := NormalizeMap(m, cols, rows);
    forall r | 0 <= r < rows
      ensures m2[r] == m[r]
    {
      assert |m2[r]| == |m[r]|;
      forall c | 0 <= c < cols ensures m2[r][c] == m[r][c] {}
    }
  }

  /** One visited cell: its row, column and character. */
  datatype Cell = Cell(row: nat, col: nat, ch: char)

  /** (row, col) order: earlier row, or same row and earlier column. */
  predicate Precedes(a: Cell, b: Cell) {
    a.row < b.row || (a.row == b.row && a.col < b.col)
  }

  function RowCells(row: nat, line: string): (cs: seq<Cell>)
    ensures |cs| == |line|
    ensures forall c :: 0 <= c < |line| ==> cs[c] == Cell(row, c, line[c])
  {
    seq(|line|, c requires 0 <= c < |line| => Cell(row, c, line[c]))
  }

  /** The cells in the order of the two nested `for` loops of `buildLevel`:
      row by row, and left to right within a row. Every cell is visited, each
      strictly after the ones before it in (row, col) order. */
  function GridCells(grid: seq<string>): (cs: seq<Cell>)
    ensures forall k :: 0 <= k < |cs| ==>
              cs[k].row < |grid| && cs[k].col < |grid[cs[k].row]| &&
              cs[k].ch == grid[cs[k].row][cs[k].col]
    ensures forall j, k :: 0 <= j < k < |cs| ==> Precedes(cs[j], cs[k])
    ensures forall r, c :: 0 <= r < |grid| && 0 <= c < |grid[r]| ==> Cell(r, c, grid[r][c]) in cs
  {
    if |grid| == 0 then []
    else
      var init := grid[..|grid| - 1];
      var last := |grid| - 1;
      var front := GridCells(init);
      var row := RowCells(last, grid[last]);
      assert forall r :: 0 <= r < |init| ==> init[r] == grid[r];
      var cs := front + row;
      assert forall k :: 0 <= k < |front| ==> cs[k] == front[k];
      assert forall k :: |front| <= k < |cs| ==> cs[k] == row[k - |front|];
      forall r, c | 0 <= r < |grid| && 0 <= c < |grid[r]|
        ensures Cell(r, c, grid[r][c]) in cs
      {
        if r == last {
          assert cs[|front| + c] == Cell(r, c, grid[r][c]);
        } else {
          assert init[r][c] == grid[r][c];
          assert Cell(r, c, init[r][c]) in front;
        }
      }
      cs
  }
}
