/** `buildLevel`: one row-major pass over the normalised map that turns each
    cell into the entity its character names. */
module Level {
  import opened Wrappers
  import opened Entities
  import opened TileMap
  import opened Game

  /** What the scan has built so far, with the two counters of
      `buildLevel`. The vector variant has no family counter; there the
      counter is kept but never read. */
  datatype ScanState = ScanState(
    walls: seq<Wall>,
    pumpkins: seq<Pumpkin>,
    player: Option<Player>,
    enemy: Option<Enemy>,
    family: seq<FamilyMember>,
    checkpoints: seq<Checkpoint>,
    checkpointCounter: nat,
    familyIndex: nat)

  const EmptyScan: ScanState := ScanState([], [], None, None, [], [], 0, 0)

  /** Top-left corner of the tile a cell stands for. */
  function TileX(cfg: Config, c: Cell): real { c.col as real * cfg.tile }

  function TileY(cfg: Config, c: Cell): real { c.row as real * cfg.tile }

  function WallAt(cfg: Config, c: Cell): Wall { NewWall(cfg, TileX(cfg, c), TileY(cfg, c)) }

  function PumpkinAt(cfg: Config, c: Cell): Pumpkin { NewPumpkin(cfg, TileX(cfg, c), TileY(cfg, c)) }

  /** Player and enemy are inset a tenth of a tile. */
  function PlayerAt(cfg: Config, c: Cell): Player {
    NewPlayer(cfg, TileX(cfg, c) + cfg.tile * 0.1, TileY(cfg, c) + cfg.tile * 0.1)
  }

  function EnemyAt(cfg: Config, c: Cell): Enemy {
    NewEnemy(cfg, TileX(cfg, c) + cfg.tile * 0.1, TileY(cfg, c) + cfg.tile * 0.1)
  }

  function FamilyAt(cfg: Config, c: Cell, index: nat): FamilyMember {
    NewFamilyMember(cfg, TileX(cfg, c), TileY(cfg, c), index)
  }

  function CheckpointAt(cfg: Config, c: Cell, index: nat): Checkpoint {
    NewCheckpoint(cfg, TileX(cfg, c), TileY(cfg, c), CheckpointLesson, index)
  }

  /** The `switch (ch)` of `buildLevel` for one cell. */
  function Place(cfg: Config, st: ScanState, c: Cell): ScanState {
    match c.ch
    case 'W' => st.(walls := st.walls + [WallAt(cfg, c)])
    case '.' => st.(pumpkins := st.pumpkins + [PumpkinAt(cfg, c)])
    case 'P' => st.(player := Some(PlayerAt(cfg, c)))
    case 'E' => st.(enemy := Some(EnemyAt(cfg, c)))
    case 'F' => st.(family := st.family + [FamilyAt(cfg, c, st.familyIndex)],
                    familyIndex := st.familyIndex + 1)
    case 'C' => st.(checkpoints := st.checkpoints + [CheckpointAt(cfg, c, st.checkpointCounter)],
                    checkpointCounter := st.checkpointCounter + 1)
    case _ => st
  }

  /** The scan of `cells` in order. Each counter always equals the length of
      the list it numbers. */
  function ScanCells(cfg: Config, cells: seq<Cell>): (st: ScanState)
    ensures st.checkpointCounter == |st.checkpoints|
    ensures st.familyIndex == |st.family|
  {
    if |cells| == 0 then EmptyScan
    else Place(cfg, ScanCells(cfg, cells[..|cells| - 1]), cells[|cells| - 1])
  }

  /** The cells carrying character ch, in scan order. */
  function CellsWith(cells: seq<Cell>, ch: char): (r: seq<Cell>)
    ensures forall i :: 0 <= i < |r| ==> r[i].ch == ch
  {
    if |cells| == 0 then []
    else
      var init := CellsWith(cells[..|cells| - 1], ch);
      var last := cells[|cells| - 1];
      if last.ch == ch then init + [last] else init
  }

  /** A cell is kept exactly when it is one of `cells` and carries ch. */
  lemma {:induction false} CellsWithMembers(cells: seq<Cell>, ch: char)
    ensures forall c :: c in CellsWith(cells, ch) <==> c in cells && c.ch == ch
    decreases |cells|
  {
    if |cells| > 0 {
      var init := cells[..|cells| - 1];
      CellsWithMembers(init, ch);
      assert cells == init + [cells[|cells| - 1]];
    }
  }

  /** The last cell carrying ch, if any. */
  function LastWith(cells: seq<Cell>, ch: char): (r: Option<Cell>)
    ensures r.None? <==> forall k :: 0 <= k < |cells| ==> cells[k].ch != ch
    ensures r.Some? ==>
              exists k :: 0 <= k < |cells| && cells[k] == r.value && r.value.ch == ch &&
                          forall j :: k < j < |cells| ==> cells[j].ch != ch
  {
    if |cells| == 0 then None
    else
      var last := cells[|cells| - 1];
      var init := cells[..|cells| - 1];
      assert forall k :: 0 <= k < |init| ==> init[k] == cells[k];
      if last.ch == ch then Some(last) else LastWith(init, ch)
  }

  /** Filtering keeps the (row, col) order of the scan. */
  lemma {:induction false} CellsWithInOrder(cells: seq<Cell>, ch: char)
    requires forall j, k :: 0 <= j < k < |cells| ==> Precedes(cells[j], cells[k])
    ensures forall j, k :: 0 <= j < k < |CellsWith(cells, ch)| ==>
              Precedes(CellsWith(cells, ch)[j], CellsWith(cells, ch)[k])
  {
    if |cells| > 0 {
      var init := cells[..|cells| - 1];
      var last := cells[|cells| - 1];
      assert forall k :: 0 <= k < |init| ==> init[k] == cells[k];
      CellsWithInOrder(init, ch);
      CellsWithMembers(init, ch);
      var r0 := CellsWith(init, ch);
      forall c | c in r0 ensures Precedes(c, last) {
        var k :| 0 <= k < |init| && init[k] == c;
      }
    }
  }

  /** Walls and pumpkins appear one per 'W' and '.' cell, in scan order. */
  lemma {:induction false} ScanWallsAndPumpkins(cfg: Config, cells: seq<Cell>)
    ensures var st := ScanCells(cfg, cells);
            var ws := CellsWith(cells, 'W');
            var ps := CellsWith(cells, '.');
            |st.walls| == |ws| && |st.pumpkins| == |ps| &&
            (forall i :: 0 <= i < |ws| ==> st.walls[i] == WallAt(cfg, ws[i])) &&
            (forall i :: 0 <= i < |ps| ==> st.pumpkins[i] == PumpkinAt(cfg, ps[i]))
  {
    if |cells| > 0 {
      var init := cells[..|cells| - 1];
      ScanWallsAndPumpkins(cfg, init);
      assert ScanCells(cfg, cells) == Place(cfg, ScanCells(cfg, init), cells[|cells| - 1]);
    }
  }

  /** Family member i stands on the i-th 'F' cell, uncollected, with sprite
      index i in the sprite variant. */
  lemma {:induction false} ScanFamily(cfg: Config, cells: seq<Cell>)
    ensures var st := ScanCells(cfg, cells);
            var fs := CellsWith(cells, 'F');
            |st.family| == |fs| &&
            forall i :: 0 <= i < |fs| ==> st.family[i] == FamilyAt(cfg, fs[i], i)
  {
    if |cells| > 0 {
      var init := cells[..|cells| - 1];
      ScanFamily(cfg, init);
      assert ScanCells(cfg, cells) == Place(cfg, ScanCells(cfg, init), cells[|cells| - 1]);
    }
  }

  /** Checkpoint i stands on the i-th 'C' cell, untriggered, with index i. */
  lemma {:induction false} ScanCheckpoints(cfg: Config, cells: seq<Cell>)
    ensures var st := ScanCells(cfg, cells);
            var cs := CellsWith(cells, 'C');
            |st.checkpoints| == |cs| &&
            forall i :: 0 <= i < |cs| ==> st.checkpoints[i] == CheckpointAt(cfg, cs[i], i)
  {
    if |cells| > 0 {
      var init := cells[..|cells| - 1];
      ScanCheckpoints(cfg, init);
      assert ScanCells(cfg, cells) == Place(cfg, ScanCells(cfg, init), cells[|cells| - 1]);
    }
  }

  /** A later 'P' or 'E' replaces an earlier one: the last one scanned wins. */
  lemma {:induction false} ScanPlayerAndEnemy(cfg: Config, cells: seq<Cell>)
    ensures var st := ScanCells(cfg, cells);
            (st.player == match LastWith(cells, 'P')
                          case None => None
                          case Some(c) => Some(PlayerAt(cfg, c))) &&
            (st.enemy == match LastWith(cells, 'E')
                         case None => None
                         case Some(c) => Some(EnemyAt(cfg, c)))
  {
    if |cells| > 0 {
      var init := cells[..|cells| - 1];
      ScanPlayerAndEnemy(cfg, init);
      assert ScanCells(cfg, cells) == Place(cfg, ScanCells(cfg, init), cells[|cells| - 1]);
    }
  }

  /** The map a level is built from. */
  function LevelGrid(cfg: Config, raw: seq<string>): seq<string> {
    NormalizeMap(raw, cfg.cols, cfg.rows)
  }

  /** The fallback when the map has no 'P': a player at (TILE, TILE). */
  function FallbackPlayer(cfg: Config): Player {
    NewPlayer(cfg, cfg.tile, cfg.tile)
  }

  /** `buildLevel` on the normalised map, with the initial game state: no
      points, running, not ended. */
  function BuildLevel(cfg: Config, raw: seq<string>): (g: GameState)
    ensures Consistent(g) && g.running && !g.ended && g.points == 0
    ensures forall i :: 0 <= i < |g.checkpoints| ==>
              g.checkpoints[i].index == i && g.checkpoints[i].lesson == CheckpointLesson &&
              !g.checkpoints[i].triggered
    ensures forall i :: 0 <= i < |g.family| ==>
              !g.family[i].collected &&
              g.family[i].index == (if cfg.familyIndexed then Some(i) else None)
  {
    var cells := GridCells(LevelGrid(cfg, raw));
    var st := ScanCells(cfg, cells);
    ScanFamily(cfg, cells);
    ScanCheckpoints(cfg, cells);
    GameState(
      if st.player.Some? then st.player.value else FallbackPlayer(cfg),
      st.enemy, st.walls, st.pumpkins, st.family, st.checkpoints,
      0, true, false, None)
  }

  /** The cells of the level map carrying ch are exactly the map positions
      holding ch, in row-major order. */
  lemma GridCellsWith(grid: seq<string>, ch: char)
    ensures var cs := CellsWith(GridCells(grid), ch);
            (forall i :: 0 <= i < |cs| ==>
               cs[i].row < |grid| && cs[i].col < |grid[cs[i].row]| &&
               grid[cs[i].row][cs[i].col] == ch) &&
            (forall j, k :: 0 <= j < k < |cs| ==> Precedes(cs[j], cs[k])) &&
            (forall r, c :: 0 <= r < |grid| && 0 <= c < |grid[r]| && grid[r][c] == ch ==>
               Cell(r, c, ch) in cs)
  {
    var cells := GridCells(grid);
    CellsWithInOrder(cells, ch);
    CellsWithMembers(cells, ch);
    var cs := CellsWith(cells, ch);
    forall i | 0 <= i < |cs|
      ensures cs[i].row < |grid| && cs[i].col < |grid[cs[i].row]| && grid[cs[i].row][cs[i].col] == ch
    {
      assert cs[i] in cells;
    }
    forall r, c | 0 <= r < |grid| && 0 <= c < |grid[r]| && grid[r][c] == ch
      ensures Cell(r, c, ch) in cs
    {
      assert Cell(r, c, grid[r][c]) in cells;
    }
  }

  /** Checkpoints: one per 'C' of the map, numbered 0, 1, 2, ... in row-major
      order, each centred in its tile. */
  lemma BuildLevelCheckpoints(cfg: Config, raw: seq<string>)
    ensures var grid := LevelGrid(cfg, raw);
            var cs := CellsWith(GridCells(grid), 'C');
            var g := BuildLevel(cfg, raw);
            |g.checkpoints| == |cs| &&
            (forall i :: 0 <= i < |cs| ==>
               cs[i].row < |grid| && cs[i].col < |grid[cs[i].row]| &&
               grid[cs[i].row][cs[i].col] == 'C' && g.checkpoints[i] == CheckpointAt(cfg, cs[i], i)) &&
            (forall j, k :: 0 <= j < k < |cs| ==> Precedes(cs[j], cs[k])) &&
            (forall r, c :: 0 <= r < cfg.rows && 0 <= c < cfg.cols && grid[r][c] == 'C' ==>
               Cell(r, c, 'C') in cs)
  {
    var grid := LevelGrid(cfg, raw);
    var cells := GridCells(grid);
    ScanCheckpoints(cfg, cells);
    GridCellsWith(grid, 'C');
    assert BuildLevel(cfg, raw).checkpoints == ScanCells(cfg, cells).checkpoints;
    assert |grid| == cfg.rows && forall r :: 0 <= r < cfg.rows ==> |grid[r]| == cfg.cols;
  }

  /** Family members: one per 'F' of the map, in row-major order, the i-th
      carrying sprite index i in the sprite variant. */
  lemma BuildLevelFamily(cfg: Config, raw: seq<string>)
    ensures var grid := LevelGrid(cfg, raw);
            var fs := CellsWith(GridCells(grid), 'F');
            var g := BuildLevel(cfg, raw);
            |g.family| == |fs| &&
            (forall i :: 0 <= i < |fs| ==>
               fs[i].row < |grid| && fs[i].col < |grid[fs[i].row]| &&
               grid[fs[i].row][fs[i].col] == 'F' && g.family[i] == FamilyAt(cfg, fs[i], i)) &&
            (forall j, k :: 0 <= j < k < |fs| ==> Precedes(fs[j], fs[k])) &&
            (forall r, c :: 0 <= r < cfg.rows && 0 <= c < cfg.cols && grid[r][c] == 'F' ==>
               Cell(r, c, 'F') in fs)
  {
    var grid := LevelGrid(cfg, raw);
    var cells := GridCells(grid);
    ScanFamily(cfg, cells);
    GridCellsWith(grid, 'F');
    assert BuildLevel(cfg, raw).family == ScanCells(cfg, cells).family;
    assert |grid| == cfg.rows && forall r :: 0 <= r < cfg.rows ==> |grid[r]| == cfg.cols;
  }

  /** One wall per 'W' and one pumpkin per '.' of the map. */
  lemma BuildLevelWallsAndPumpkins(cfg: Config, raw: seq<string>)
    ensures var grid := LevelGrid(cfg, raw);
            var ws := CellsWith(GridCells(grid), 'W');
            var ps := CellsWith(GridCells(grid), '.');
            var g := BuildLevel(cfg, raw);
            |g.walls| == |ws| && |g.pumpkins| == |ps| &&
            (forall i :: 0 <= i < |ws| ==>
               ws[i].row < |grid| && ws[i].col < |grid[ws[i].row]| &&
               grid[ws[i].row][ws[i].col] == 'W' && g.walls[i] == WallAt(cfg, ws[i])) &&
            (forall i :: 0 <= i < |ps| ==>
               ps[i].row < |grid| && ps[i].col < |grid[ps[i].row]| &&
               grid[ps[i].row][ps[i].col] == '.' && g.pumpkins[i] == PumpkinAt(cfg, ps[i])) &&
            (forall j, k :: 0 <= j < k < |ws| ==> Precedes(ws[j], ws[k])) &&
            (forall j, k :: 0 <= j < k < |ps| ==> Precedes(ps[j], ps[k])) &&
            (forall r, c :: 0 <= r < cfg.rows && 0 <= c < cfg.cols && grid[r][c] == 'W' ==>
               Cell(r, c, 'W') in ws) &&
            (forall r, c :: 0 <= r < cfg.rows && 0 <= c < cfg.cols && grid[r][c] == '.' ==>
               Cell(r, c, '.') in ps)
  {
    var grid := LevelGrid(cfg, raw);
    ScanWallsAndPumpkins(cfg, GridCells(grid));
    GridCellsWith(grid, 'W');
    GridCellsWith(grid, '.');
  }

  /** Some position of the map holds ch. */
  predicate HasChar(grid: seq<string>, ch: char) {
    exists r, c :: 0 <= r < |grid| && 0 <= c < |grid[r]| && grid[r][c] == ch
  }

  /** Position (r, c) holds ch and no later position in row-major order does. */
  predicate IsLastChar(grid: seq<string>, r: nat, c: nat, ch: char) {
    && r < |grid| && c < |grid[r]| && grid[r][c] == ch
    && forall r', c' ::
         (0 <= r' < |grid| && 0 <= c' < |grid[r']| && Precedes(Cell(r, c, ch), Cell(r', c', ch))) ==>
           grid[r'][c'] != ch
  }

  /** `LastWith` over the scan of a map finds the last position holding ch
      in row-major order, and nothing when no position holds it. */
  lemma LastWithOfGrid(grid: seq<string>, ch: char)
    ensures LastWith(GridCells(grid), ch).None? <==> !HasChar(grid, ch)
    ensures LastWith(GridCells(grid), ch).Some? ==>
              var c := LastWith(GridCells(grid), ch).value;
              c.ch == ch && IsLastChar(grid, c.row, c.col, ch)
  {
    var cells := GridCells(grid);
    if LastWith(cells, ch).Some? {
      var last := LastWith(cells, ch).value;
      var k :| 0 <= k < |cells| && cells[k] == last && last.ch == ch &&
               forall j :: k < j < |cells| ==> cells[j].ch != ch;
      forall r', c' | 0 <= r' < |grid| && 0 <= c' < |grid[r']| &&
                      Precedes(Cell(last.row, last.col, ch), Cell(r', c', ch))
        ensures grid[r'][c'] != ch
      {
        assert Cell(r', c', grid[r'][c']) in cells;
        var j :| 0 <= j < |cells| && cells[j] == Cell(r', c', grid[r'][c']);
        assert j != k;
        assert k < j;
      }
    }
  }

  /** With no 'P' in the map the player is the fallback at (TILE, TILE);
      otherwise it stands on the last 'P' in row-major order. */
  lemma BuildLevelPlayer(cfg: Config, raw: seq<string>)
    ensures var grid := LevelGrid(cfg, raw);
            var g := BuildLevel(cfg, raw);
            (!HasChar(grid, 'P') ==> g.player == FallbackPlayer(cfg)) &&
            (HasChar(grid, 'P') ==>
               exists r: nat, c: nat :: IsLastChar(grid, r, c, 'P') && g.player == PlayerAt(cfg, Cell(r, c, 'P')))
  {
    var grid := LevelGrid(cfg, raw);
    ScanPlayerAndEnemy(cfg, GridCells(grid));
    LastWithOfGrid(grid, 'P');
    if HasChar(grid, 'P') {
      var last := LastWith(GridCells(grid), 'P').value;
      assert last == Cell(last.row, last.col, 'P');
      assert IsLastChar(grid, last.row, last.col, 'P');
    }
  }

  /** The enemy is absent without an 'E' and otherwise stands on the last
      'E' in row-major order. */
  lemma BuildLevelEnemy(cfg: Config, raw: seq<string>)
    ensures var grid := LevelGrid(cfg, raw);
            var g := BuildLevel(cfg, raw);
            (g.enemy.None? <==> !HasChar(grid, 'E')) &&
            (g.enemy.Some? ==>
               exists r: nat, c: nat :: IsLastChar(grid, r, c, 'E') && g.enemy.value == EnemyAt(cfg, Cell(r, c, 'E')))
  {
    var grid := LevelGrid(cfg, raw);
    ScanPlayerAndEnemy(cfg, GridCells(grid));
    LastWithOfGrid(grid, 'E');
    if HasChar(grid, 'E') {
      var last := LastWith(GridCells(grid), 'E').value;
      assert last == Cell(last.row, last.col, 'E');
      assert IsLastChar(grid, last.row, last.col, 'E');
    }
  }
}
