/** The per-variant constants and the entity records of the maze game.

    The game exists in two near-identical variants that differ only in the
    constants gathered in `Config`: the sprite variant (`templates/game.js`)
    and the vector variant (`frontend/game.js`). */
module Entities {
  import opened Wrappers
  import opened Geometry

  /** Edge length of one map tile, in canvas units (both variants). */
  const Tile: real := 32.0

  /** Points a pumpkin is worth (`this.points = 5`). */
  const PumpkinPoints: int := 5

  /** Lesson every checkpoint asks about. */
  const CheckpointLesson: int := 1

  /** The constants a variant fixes. `cols` and `rows` are the canvas size
      divided by the tile size, rounded down; the canvas itself belongs to the
      page, so they are parameters. */
  datatype Config = Config(
    tile: real,
    entitySize: real,     // player, enemy and family member edge length
    playerSpeed: real,
    enemySpeed: real,
    familyIndexed: bool,  // whether family members carry a sprite index
    cols: nat,
    rows: nat)
  {
    predicate Valid() {
      tile > 0.0 && entitySize > 0.0 && playerSpeed > 0.0 && enemySpeed > 0.0
    }
  }

  /** Sprite variant: large entities, player speed 2, enemy speed 1. */
  function SpriteVariant(cols: nat, rows: nat): Config {
    Config(Tile, Tile * 1.5, 2.0, 1.0, true, cols, rows)
  }

  /** Vector variant: small entities, player speed 5, enemy speed 1.5. */
  function VectorVariant(cols: nat, rows: nat): Config {
    Config(Tile, Tile * 0.8, 5.0, 1.5, false, cols, rows)
  }

  datatype Wall = Wall(box: Rect)

  datatype Pumpkin = Pumpkin(box: Rect)

  datatype Player = Player(box: Rect, speed: real)

  datatype Enemy = Enemy(box: Rect, speed: real)

  /** `index` selects one of the family sprites; the vector variant has none. */
  datatype FamilyMember = FamilyMember(box: Rect, collected: bool, index: Option<nat>)

  datatype Checkpoint = Checkpoint(box: Rect, lesson: int, index: nat, triggered: bool)

  /** A wall covers the whole tile whose top-left corner is (x, y). */
  function NewWall(cfg: Config, x: real, y: real): (w: Wall)
    ensures w.box.x == x && w.box.y == y
    ensures w.box.w == cfg.tile && w.box.h == cfg.tile
  {
    Wall(Rect(x, y, cfg.tile, cfg.tile))
  }

  /** A pumpkin is half a tile wide and sits in the middle of its tile. */
  function NewPumpkin(cfg: Config, x: real, y: real): (p: Pumpkin)
    ensures p.box.CenterX() == x + cfg.tile / 2.0 && p.box.CenterY() == y + cfg.tile / 2.0
    ensures p.box.w == cfg.tile / 2.0 && p.box.h == cfg.tile / 2.0
  {
    Pumpkin(Rect(x + cfg.tile * 0.25, y + cfg.tile * 0.25, cfg.tile * 0.5, cfg.tile * 0.5))
  }

  /** `new Player(x, y)`: the corner is the one given. */
  function NewPlayer(cfg: Config, x: real, y: real): (p: Player)
    ensures p.box.x == x && p.box.y == y
    ensures p.box.w == cfg.entitySize && p.box.h == cfg.entitySize
    ensures p.speed == cfg.playerSpeed
  {
    Player(Rect(x, y, cfg.entitySize, cfg.entitySize), cfg.playerSpeed)
  }

  function NewEnemy(cfg: Config, x: real, y: real): (e: Enemy)
    ensures e.box.x == x && e.box.y == y
    ensures e.box.w == cfg.entitySize && e.box.h == cfg.entitySize
    ensures e.speed == cfg.enemySpeed
  {
    Enemy(Rect(x, y, cfg.entitySize, cfg.entitySize), cfg.enemySpeed)
  }

  /** A family member is inset a tenth of a tile into the tile at (x, y),
      starts uncollected, and keeps its sprite index only in the sprite
      variant. */
  function NewFamilyMember(cfg: Config, x: real, y: real, index: nat): (f: FamilyMember)
    ensures f.box.x == x + cfg.tile / 10.0 && f.box.y == y + cfg.tile / 10.0
    ensures f.box.w == cfg.entitySize && f.box.h == cfg.entitySize
    ensures !f.collected
    ensures f.index == if cfg.familyIndexed then Some(index) else None
  {
    FamilyMember(
      Rect(x + cfg.tile * 0.1, y + cfg.tile * 0.1, cfg.entitySize, cfg.entitySize),
      false,
      if cfg.familyIndexed then Some(index) else None)
  }

  /** A checkpoint is centred in its tile at half the tile size and starts
      untriggered. */
  function NewCheckpoint(cfg: Config, x: real, y: real, lesson: int, index: nat): (c: Checkpoint)
    ensures c.box.CenterX() == x + cfg.tile / 2.0 && c.box.CenterY() == y + cfg.tile / 2.0
    ensures c.box.w == cfg.tile / 2.0 && c.box.h == cfg.tile / 2.0
    ensures c.lesson == lesson && c.index == index && !c.triggered
  {
    Checkpoint(Rect(x + cfg.tile * 0.25, y + cfg.tile * 0.25, cfg.tile * 0.5, cfg.tile * 0.5),
               lesson, index, false)
  }

  /** Both variants are well formed, and in both the enemy is slower than
      the player and slower than twice the pursuit deadzone. */
  lemma VariantsAreValid(cols: nat, rows: nat)
    ensures SpriteVariant(cols, rows).Valid() && VectorVariant(cols, rows).Valid()
    ensures SpriteVariant(cols, rows).enemySpeed < SpriteVariant(cols, rows).playerSpeed
    ensures VectorVariant(cols, rows).enemySpeed < VectorVariant(cols, rows).playerSpeed
    ensures SpriteVariant(cols, rows).enemySpeed < 2.0 && VectorVariant(cols, rows).enemySpeed < 2.0
  {
  }
}
