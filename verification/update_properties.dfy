/** Properties of one call of `update`, stated against the player's and the
    enemy's positions after their moves (`Tick(g, k).player`,
    `Tick(g, k).enemy`), which no later pass of the tick changes. */
module TickProperties {
  import opened Wrappers
  import opened Geometry
  import opened Entities
  import opened Game
  import opened Movement
  import opened Update

  /** Every pumpkin overlapping the moved player is gone, the others keep
      their order, and the score rises by `PumpkinPoints` per removed
      pumpkin, whether or not the enemy caught the player earlier in the
      same tick. */
  lemma TickPumpkins(g: GameState, k: Keys)
    requires g.running
    ensures var r := Tick(g, k);
            r.pumpkins == Remaining(g.pumpkins, r.player.box) &&
            r.points == g.points + PumpkinPoints * (|g.pumpkins| - |r.pumpkins|)
  {
  }

  /** A checkpoint becomes triggered exactly when it is the first
      triggerable one in list order; so at most one fires per tick, and
      when one fires the game is paused. */
  lemma TickCheckpoints(g: GameState, k: Keys)
    requires g.running
    ensures var r := Tick(g, k);
            var first := FirstTriggerable(g.checkpoints, r.player.box);
            && (forall j :: 0 <= j < |g.checkpoints| ==>
                  (r.checkpoints[j].triggered <==> g.checkpoints[j].triggered || first == Some(j)))
            && (forall i, j ::
                  (0 <= i < |g.checkpoints| && 0 <= j < |g.checkpoints| &&
                   !g.checkpoints[i].triggered && r.checkpoints[i].triggered &&
                   !g.checkpoints[j].triggered && r.checkpoints[j].triggered) ==> i == j)
            && (first.Some? ==> !r.running)
  {
  }

  /** A running tick pauses the game only through a checkpoint or the end
      of the game: it is still running afterwards exactly when no
      checkpoint fired and the game did not end. */
  lemma TickPausesOnlyForCheckpointOrEnd(g: GameState, k: Keys)
    requires Consistent(g) && g.running
    ensures var r := Tick(g, k);
            r.running <==> FirstTriggerable(g.checkpoints, r.player.box).None? && !r.ended
  {
  }

  /** If the moved enemy overlaps the moved player, the game ends as
      "caught", and the hand-off records the score from before this tick's
      pumpkins: they are collected after the capture. */
  lemma TickCaught(g: GameState, k: Keys)
    requires g.running && !g.ended && g.enemy.Some?
    ensures var r := Tick(g, k);
            r.enemy.Some? &&
            (Intersects(r.enemy.value.box, r.player.box) ==>
               r.ended && !r.running &&
               r.summary == Some(Summary(g.points, CountCollected(g.family), |g.family|, Caught)))
  {
  }

  /** Without a capture, the game ends in this tick exactly when some family
      member was collected now and every member is collected afterwards;
      the hand-off then reports the full family and the score after the
      pumpkins of the tick. */
  lemma TickWin(g: GameState, k: Keys)
    requires g.running && !g.ended
    requires var r := Tick(g, k);
             g.enemy.None? || !Intersects(r.enemy.value.box, r.player.box)
    ensures var r := Tick(g, k);
            && (r.ended <==> CollectableFrom(g.family, 0, r.player.box) && AllCollected(r.family))
            && (r.ended ==> !r.running && r.summary == Some(Summary(r.points, |g.family|, |g.family|, Win)))
  {
  }

  /** `update` keeps the state-machine invariant. */
  lemma TickKeepsConsistent(g: GameState, k: Keys)
    requires Consistent(g)
    ensures Consistent(Tick(g, k))
  {
  }

  /** Once the game has ended nothing changes any more: no points, family
      flags or checkpoint flags. */
  lemma EndedGameIsFrozen(g: GameState, k: Keys)
    requires Consistent(g) && g.ended
    ensures Tick(g, k) == g
  {
  }
}
