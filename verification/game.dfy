/** The game-state aggregate and the three transitions that act on it
    directly: `endGame`, the synchronous part of `showCheckpoint`, and the
    close button of the checkpoint overlay. */
module Game {
  import opened Wrappers
  import opened Entities

  datatype EndReason = Caught | Win

  /** What `endGame` hands to the game-over page: final score, collected
      family count, family total and the reason. */
  datatype Summary = Summary(finalScore: int, collectedFamily: nat, totalFamily: nat, reason: EndReason)

  /** The `game` object. The player is never absent once the level is built
      (there is a fallback), so it is not optional here. `summary` records
      the one hand-off `endGame` performs. */
  datatype GameState = GameState(
    player: Player,
    enemy: Option<Enemy>,
    walls: seq<Wall>,
    pumpkins: seq<Pumpkin>,
    family: seq<FamilyMember>,
    checkpoints: seq<Checkpoint>,
    points: int,
    running: bool,
    ended: bool,
    summary: Option<Summary>)

  /** The state-machine invariant: a hand-off exists exactly when the game
      has ended, and an ended game is not running. */
  predicate Consistent(g: GameState) {
    (g.ended <==> g.summary.Some?) && (g.ended ==> !g.running)
  }

  /** Number of family members already collected
      (`game.family.filter(f => f.collected).length`). */
  function CountCollected(fs: seq<FamilyMember>): (n: nat)
    ensures n <= |fs|
  {
    if |fs| == 0 then 0
    else CountCollected(fs[..|fs| - 1]) + (if fs[|fs| - 1].collected then 1 else 0)
  }

  predicate AllCollected(fs: seq<FamilyMember>) {
    forall i :: 0 <= i < |fs| ==> fs[i].collected
  }

  /** The count reaches the total exactly when every member is collected. */
  lemma {:induction false} CountCollectedFull(fs: seq<FamilyMember>)
    ensures CountCollected(fs) == |fs| <==> AllCollected(fs)
  {
    if |fs| > 0 {
      var init := fs[..|fs| - 1];
      CountCollectedFull(init);
      assert forall i :: 0 <= i < |init| ==> init[i] == fs[i];
    }
  }

  /** `endGame(reason)`: the first call ends and stops the game and records
      the hand-off; any later call changes nothing. */
  function EndGame(g: GameState, reason: EndReason): (r: GameState)
    ensures r.ended
    ensures g.ended ==> r == g
    ensures !g.ended ==> !r.running
    ensures !g.ended ==>
              r.summary == Some(Summary(g.points, CountCollected(g.family), |g.family|, reason))
    ensures r.(running := g.running, ended := g.ended, summary := g.summary) == g
  {
    if g.ended then g
    else
      g.(ended := true, running := false,
         summary := Some(Summary(g.points, CountCollected(g.family), |g.family|, reason)))
  }

  /** Ending twice is ending once, whatever the second reason. */
  lemma EndGameIdempotent(g: GameState, first: EndReason, second: EndReason)
    ensures EndGame(EndGame(g, first), second) == EndGame(g, first)
  {
  }

  /** The synchronous prefix of `showCheckpoint(cp)`: an untriggered
      checkpoint becomes triggered and the game pauses; a triggered one is
      left alone. The flashcard fetch that follows does not touch the state. */
  function ShowCheckpoint(g: GameState, i: nat): (r: GameState)
    requires i < |g.checkpoints|
    ensures |r.checkpoints| == |g.checkpoints|
    ensures r.checkpoints[i].triggered
    ensures !g.checkpoints[i].triggered ==> !r.running
    ensures g.checkpoints[i].triggered ==> r == g
    ensures forall j :: 0 <= j < |g.checkpoints| && j != i ==> r.checkpoints[j] == g.checkpoints[j]
    ensures r.checkpoints[i].(triggered := g.checkpoints[i].triggered) == g.checkpoints[i]
    ensures r.(checkpoints := g.checkpoints, running := g.running) == g
  {
    if g.checkpoints[i].triggered then g
    else
      g.(checkpoints := g.checkpoints[i := g.checkpoints[i].(triggered := true)],
         running := false)
  }

  /** The close button of the checkpoint overlay resumes the game; it does
      not look at `ended` and leaves every triggered flag as it was. */
  function Dismiss(g: GameState): (r: GameState)
    ensures r.running
    ensures r.(running := g.running) == g
  {
    g.(running := true)
  }

  /** `EndGame` establishes the invariant from any consistent state. */
  lemma EndGameKeepsConsistent(g: GameState, reason: EndReason)
    requires Consistent(g)
    ensures Consistent(EndGame(g, reason))
  {
  }

  /** Dismissing a pause that came from a checkpoint (not from the end of
      the game) keeps the invariant; dismissing after the end does not,
      because the handler never checks `ended`. */
  lemma DismissConsistency(g: GameState)
    requires Consistent(g)
    ensures Consistent(Dismiss(g)) <==> !g.ended
  {
  }
}
