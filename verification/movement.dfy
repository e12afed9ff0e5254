/** Movement: axis-separated move-then-revert collision against the walls,
    the player's keyboard step, and the enemy's greedy pursuit. */
module Movement {
  import opened Wrappers
  import opened Geometry
  import opened Entities
  import opened Game

  /** `collidesWithWalls(ent)`: some wall overlaps the box. */
  predicate CollidesWithWalls(b: Rect, walls: seq<Wall>) {
    exists i :: 0 <= i < |walls| && Intersects(b, walls[i].box)
  }

  /** `move(dx, dy)`: step x and undo it if the box now hits a wall, then
      step y and undo it the same way. The x decision sees the old y; the y
      decision sees the already settled x. */
  function MoveBox(b: Rect, dx: real, dy: real, walls: seq<Wall>): (r: Rect)
    ensures r.w == b.w && r.h == b.h
    ensures r.x == (if CollidesWithWalls(b.(x := b.x + dx), walls) then b.x else b.x + dx)
    ensures r.y == (if CollidesWithWalls(b.(x := r.x, y := b.y + dy), walls) then b.y else b.y + dy)
  {
    var b1 := b.(x := b.x + dx);
    var b2 := if CollidesWithWalls(b1, walls) then b1.(x := b1.x - dx) else b1;
    var b3 := b2.(y := b2.y + dy);
    if CollidesWithWalls(b3, walls) then b3.(y := b3.y - dy) else b3
  }

  /** A box that starts clear of every wall ends clear of every wall. */
  lemma MoveKeepsClear(b: Rect, dx: real, dy: real, walls: seq<Wall>)
    requires !CollidesWithWalls(b, walls)
    ensures !CollidesWithWalls(MoveBox(b, dx, dy, walls), walls)
  {
    var b1 := b.(x := b.x + dx);
    var b2 := if CollidesWithWalls(b1, walls) then b else b1;
    assert !CollidesWithWalls(b2, walls);
    var b3 := b2.(y := b2.y + dy);
    assert MoveBox(b, dx, dy, walls) == (if CollidesWithWalls(b3, walls) then b2 else b3);
  }

  /** Sliding along a wall: a blocked x step is undone while an unblocked y
      step is kept. */
  lemma BlockedAxisOnlyIsReverted(b: Rect, dx: real, dy: real, walls: seq<Wall>)
    requires CollidesWithWalls(b.(x := b.x + dx), walls)
    requires !CollidesWithWalls(b.(y := b.y + dy), walls)
    ensures MoveBox(b, dx, dy, walls) == b.(y := b.y + dy)
  {
  }

  /** The four arrow keys as sampled for one tick. */
  datatype Keys = Keys(left: bool, right: bool, up: bool, down: bool)

  /** `handleInput`'s step: left subtracts the speed from dx and right adds
      it; up and down do the same for dy. */
  function InputDelta(speed: real, k: Keys): (d: (real, real))
    ensures d.0 in {-speed, 0.0, speed} && d.1 in {-speed, 0.0, speed}
    ensures k.left == k.right ==> d.0 == 0.0
    ensures k.up == k.down ==> d.1 == 0.0
    ensures speed > 0.0 ==>
              && (d.0 < 0.0 <==> k.left && !k.right)
              && (d.0 > 0.0 <==> k.right && !k.left)
              && (d.1 < 0.0 <==> k.up && !k.down)
              && (d.1 > 0.0 <==> k.down && !k.up)
  {
    var dx := if k.left then 0.0 - speed else 0.0;
    var dx := if k.right then dx + speed else dx;
    var dy := if k.up then 0.0 - speed else 0.0;
    var dy := if k.down then dy + speed else dy;
    (dx, dy)
  }

  /** `player.handleInput(keys)`: while running, the player moves by the
      input step through the walls; nothing else changes. */
  function HandleInput(g: GameState, k: Keys): (r: GameState)
    ensures r.(player := g.player) == g
    ensures r.player.speed == g.player.speed
    ensures !g.running ==> r == g
    ensures g.running ==>
              var d := InputDelta(g.player.speed, k);
              r.player.box == MoveBox(g.player.box, d.0, d.1, g.walls)
  {
    if !g.running then g
    else
      var d := InputDelta(g.player.speed, k);
      g.(player := g.player.(box := MoveBox(g.player.box, d.0, d.1, g.walls)))
  }

  function Abs(v: real): real { if v < 0.0 then -v else v }

  /** Width of the band around the player's centre in which the enemy holds
      an axis still. */
  const Deadzone: real := 1.0

  /** One axis of the enemy's pursuit: a full step towards the target's
      centre coordinate, or nothing within the deadzone. */
  function ChaseStep(target: real, self: real, speed: real): (d: real)
    ensures d in {speed, -speed, 0.0}
    ensures Abs(target - self) <= Deadzone ==> d == 0.0
    ensures target - self > Deadzone ==> d == speed
    ensures self - target > Deadzone ==> d == -speed
    ensures speed != 0.0 ==> (d == 0.0 <==> Abs(target - self) <= Deadzone)
  {
    if Abs(target - self) > Deadzone then
      (if target > self then speed else -speed)
    else 0.0
  }

  /** On an axis that is not blocked, a step slower than twice the deadzone
      brings the enemy's centre strictly closer to the player's. */
  lemma ChaseStepClosesGap(target: real, self: real, speed: real)
    requires 0.0 < speed < 2.0 * Deadzone
    requires Abs(target - self) > Deadzone
    ensures Abs(target - (self + ChaseStep(target, self, speed))) < Abs(target - self)
  {
  }

  /** `enemy.update()`: while running, the enemy steps towards the player
      through the walls, and if it then overlaps the player the game ends as
      "caught". Player, pickups and score are untouched. */
  function EnemyUpdate(g: GameState): (r: GameState)
    ensures r.(enemy := g.enemy, running := g.running, ended := g.ended, summary := g.summary) == g
    ensures g.enemy.None? || !g.running ==> r == g
    ensures g.enemy.Some? && g.running ==>
              var e := g.enemy.value;
              var dx := ChaseStep(g.player.box.CenterX(), e.box.CenterX(), e.speed);
              var dy := ChaseStep(g.player.box.CenterY(), e.box.CenterY(), e.speed);
              && r.enemy == Some(Enemy(MoveBox(e.box, dx, dy, g.walls), e.speed))
              && (r.ended <==> g.ended || Intersects(r.enemy.value.box, g.player.box))
              && (Intersects(r.enemy.value.box, g.player.box) && !g.ended ==>
                    !r.running &&
                    r.summary == Some(Summary(g.points, CountCollected(g.family), |g.family|, Caught)))
              && (!Intersects(r.enemy.value.box, g.player.box) || g.ended ==>
                    r.running == g.running && r.summary == g.summary)
  {
    match g.enemy
    case None => g
    case Some(e) =>
      if !g.running then g
      else
        var dx := ChaseStep(g.player.box.CenterX(), e.box.CenterX(), e.speed);
        var dy := ChaseStep(g.player.box.CenterY(), e.box.CenterY(), e.speed);
        var moved := e.(box := MoveBox(e.box, dx, dy, g.walls));
        var g1 := g.(enemy := Some(moved));
        if Intersects(moved.box, g.player.box) then EndGame(g1, Caught) else g1
  }
}
