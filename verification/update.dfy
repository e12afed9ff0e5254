/** The per-frame `update`: player input, enemy pursuit, then the pumpkin,
    family and checkpoint passes against the player's new position. */
module Update {
  import opened Wrappers
  import opened Geometry
  import opened Entities
  import opened Game
  import opened Movement

  // ---------------------------------------------------------------------
  // Pumpkins
  // ---------------------------------------------------------------------

  /** The pumpkins the player does not overlap, in their original order. */
  function Remaining(ps: seq<Pumpkin>, player: Rect): (r: seq<Pumpkin>)
    ensures |r| <= |ps|
  {
    if |ps| == 0 then []
    else (if Intersects(ps[0].box, player) then [] else [ps[0]]) + Remaining(ps[1..], player)
  }

  /** A pumpkin survives exactly when it was there and the player does not
      overlap it. */
  lemma {:induction false} RemainingMembers(ps: seq<Pumpkin>, player: Rect)
    ensures forall p :: p in Remaining(ps, player) <==> p in ps && !Intersects(p.box, player)
    decreases |ps|
  {
    if |ps| > 0 {
      RemainingMembers(ps[1..], player);
      assert ps == [ps[0]] + ps[1..];
    }
  }

  lemma {:induction false} RemainingAppend(a: seq<Pumpkin>, b: seq<Pumpkin>, player: Rect)
    ensures Remaining(a + b, player) == Remaining(a, player) + Remaining(b, player)
  {
    if |a| == 0 {
      assert a + b == b;
    } else {
      assert (a + b)[0] == a[0];
      assert (a + b)[1..] == a[1..] + b;
      RemainingAppend(a[1..], b, player);
    }
  }

  /** The pumpkin loop as written: index i runs from the last pumpkin down
      to the first, and an overlapping pumpkin is spliced out and scores.
      Having visited the indices above i, the list is the untouched prefix
      followed by the survivors, and every removal scored once. */
  function SweepPumpkins(ps: seq<Pumpkin>, i: int, player: Rect, points: int): (r: (seq<Pumpkin>, int))
    requires -1 <= i < |ps|
    ensures r.0 == Remaining(ps[..i + 1], player) + ps[i + 1..]
    ensures r.1 == points + PumpkinPoints * (|ps| - |r.0|)
    decreases i + 1
  {
    if i < 0 then
      (ps, points)
    else
      assert ps[..i + 1] == ps[..i] + [ps[i]];
      RemainingAppend(ps[..i], [ps[i]], player);
      if Intersects(ps[i].box, player) then
        var spliced := ps[..i] + ps[i + 1..];
        assert spliced[..i] == ps[..i] && spliced[i..] == ps[i + 1..];
        SweepPumpkins(spliced, i - 1, player, points + PumpkinPoints)
      else
        SweepPumpkins(ps, i - 1, player, points)
  }

  /** Every pumpkin overlapping the player is removed, the rest keep their
      order, and each removal adds `PumpkinPoints`. */
  function PumpkinPass(g: GameState): (r: GameState)
    ensures r == g.(pumpkins := Remaining(g.pumpkins, g.player.box),
                    points := g.points + PumpkinPoints * (|g.pumpkins| - |Remaining(g.pumpkins, g.player.box)|))
  {
    var swept := SweepPumpkins(g.pumpkins, |g.pumpkins| - 1, g.player.box, g.points);
    assert g.pumpkins[..|g.pumpkins|] == g.pumpkins;
    g.(pumpkins := swept.0, points := swept.1)
  }

  // ---------------------------------------------------------------------
  // Family
  // ---------------------------------------------------------------------

  /** A member becomes collected this tick: it was not, and it overlaps. */
  predicate Collectable(f: FamilyMember, player: Rect) {
    !f.collected && Intersects(f.box, player)
  }

  /** Some member at index i or later becomes collected this tick. */
  predicate CollectableFrom(fs: seq<FamilyMember>, i: nat, player: Rect) {
    exists j :: i <= j < |fs| && Collectable(fs[j], player)
  }

  /** The flags after the pass: a member is collected if it was, or if it
      overlaps the player. */
  function Collect(fs: seq<FamilyMember>, player: Rect): (r: seq<FamilyMember>)
    ensures |r| == |fs|
    ensures forall i :: 0 <= i < |fs| ==>
              r[i] == fs[i].(collected := fs[i].collected || Intersects(fs[i].box, player))
  {
    seq(|fs|, i requires 0 <= i < |fs| =>
          fs[i].(collected := fs[i].collected || Intersects(fs[i].box, player)))
  }

  /** The family loop as written, from index i on: an uncollected
      overlapping member is collected, and if the collected count then
      equals the family size the game ends as "win". */
  function FamilyFrom(g: GameState, i: nat): GameState
    requires i <= |g.family|
    decreases |g.family| - i
  {
    if i == |g.family| then g
    else
      var f := g.family[i];
      if !f.collected && Intersects(f.box, g.player.box) then
        var g1 := g.(family := g.family[i := f.(collected := true)]);
        var g2 := if CountCollected(g1.family) == |g1.family| then EndGame(g1, Win) else g1;
        FamilyFrom(g2, i + 1)
      else
        FamilyFrom(g, i + 1)
  }

  /** Outcome of the family loop from index i: the members from i on are
      collected exactly when they overlap (or already were), and the game
      ends as "win" exactly when some member from i on was collected now and
      every member is collected afterwards, unless it had already ended. */
  lemma {:induction false} FamilyFromSpec(g: GameState, i: nat)
    requires i <= |g.family|
    ensures var r := FamilyFrom(g, i);
            var win := CollectableFrom(g.family, i, g.player.box) && AllCollected(r.family);
            && |r.family| == |g.family|
            && (forall j :: 0 <= j < i ==> r.family[j] == g.family[j])
            && (forall j :: i <= j < |g.family| ==>
                  r.family[j] == g.family[j].(collected := g.family[j].collected || Intersects(g.family[j].box, g.player.box)))
            && r.(family := g.family, running := g.running, ended := g.ended, summary := g.summary) == g
            && (if g.ended || !win
                then r.running == g.running && r.ended == g.ended && r.summary == g.summary
                else r.ended && !r.running &&
                     r.summary == Some(Summary(g.points, |g.family|, |g.family|, Win)))
    decreases |g.family| - i
  {
    var p := g.player.box;
    if i < |g.family| {
      var f := g.family[i];
      if !f.collected && Intersects(f.box, p) {
        var g1 := g.(family := g.family[i := f.(collected := true)]);
        var full := CountCollected(g1.family) == |g1.family|;
        var g2 := if full then EndGame(g1, Win) else g1;
        FamilyFromSpec(g2, i + 1);
        CountCollectedFull(g1.family);
        var r := FamilyFrom(g2, i + 1);
        assert r == FamilyFrom(g, i);
        assert CollectableFrom(g.family, i, p);
        if !g.ended && AllCollected(r.family) && !full {
          var u :| 0 <= u < |g1.family| && !g1.family[u].collected;
          assert r.family[u].collected;
          assert Collectable(g2.family[u], p);
        }
      } else {
        FamilyFromSpec(g, i + 1);
        if CollectableFrom(g.family, i, p) {
          var u :| i <= u < |g.family| && Collectable(g.family[u], p);
          assert u != i;
        }
      }
    }
  }

  /** The whole family loop of one tick. */
  function FamilyPass(g: GameState): (r: GameState)
    ensures r.family == Collect(g.family, g.player.box)
    ensures r.(family := g.family, running := g.running, ended := g.ended, summary := g.summary) == g
    ensures var win := CollectableFrom(g.family, 0, g.player.box) && AllCollected(r.family);
            if g.ended || !win
            then r.running == g.running && r.ended == g.ended && r.summary == g.summary
            else r.ended && !r.running && r.summary == Some(Summary(g.points, |g.family|, |g.family|, Win))
  {
    FamilyFromSpec(g, 0);
    FamilyFrom(g, 0)
  }

  // ---------------------------------------------------------------------
  // Checkpoints
  // ---------------------------------------------------------------------

  /** A checkpoint fires this tick: it has not fired before and overlaps. */
  predicate Triggerable(c: Checkpoint, player: Rect) {
    !c.triggered && Intersects(c.box, player)
  }

  /** The checkpoint loop with its `break`: the first triggerable checkpoint
      at index i or later, if any. */
  function FirstTriggerableFrom(cps: seq<Checkpoint>, player: Rect, i: nat): (r: Option<nat>)
    requires i <= |cps|
    ensures r.Some? ==>
              && i <= r.value < |cps|
              && Triggerable(cps[r.value], player)
              && forall j :: i <= j < r.value ==> !Triggerable(cps[j], player)
    ensures r.None? ==> forall j :: i <= j < |cps| ==> !Triggerable(cps[j], player)
    decreases |cps| - i
  {
    if i == |cps| then None
    else if !cps[i].triggered && Intersects(cps[i].box, player) then Some(i)
    else FirstTriggerableFrom(cps, player, i + 1)
  }

  function FirstTriggerable(cps: seq<Checkpoint>, player: Rect): Option<nat> {
    FirstTriggerableFrom(cps, player, 0)
  }

  /** At most one checkpoint fires per tick, the first triggerable one in
      list order, and firing pauses the game. */
  function CheckpointPass(g: GameState): (r: GameState)
    ensures r.(checkpoints := g.checkpoints, running := g.running) == g
    ensures |r.checkpoints| == |g.checkpoints|
    ensures forall j :: 0 <= j < |g.checkpoints| ==>
              r.checkpoints[j] == g.checkpoints[j].(triggered := g.checkpoints[j].triggered ||
                                                   FirstTriggerable(g.checkpoints, g.player.box) == Some(j))
    ensures r.running == (g.running && FirstTriggerable(g.checkpoints, g.player.box).None?)
  {
    match FirstTriggerable(g.checkpoints, g.player.box)
    case None => g
    case Some(i) => ShowCheckpoint(g, i)
  }

  // ---------------------------------------------------------------------
  // The tick
  // ---------------------------------------------------------------------

  /** `update()`. `running` is looked at only on entry (and again by the
      player and enemy steps), so a capture inside the enemy step does not
      stop the pumpkin, family and checkpoint passes of the same call. */
  function Tick(g: GameState, k: Keys): (r: GameState)
    ensures !g.running ==> r == g
    ensures g.running ==> r.player == HandleInput(g, k).player &&
                          r.enemy == EnemyUpdate(HandleInput(g, k)).enemy
    ensures g.running ==> r.family == Collect(g.family, r.player.box)
    ensures r.walls == g.walls
    ensures r.points >= g.points
    ensures |r.family| == |g.family|
    ensures forall i :: 0 <= i < |g.family| ==>
              r.family[i].box == g.family[i].box && r.family[i].index == g.family[i].index &&
              (g.family[i].collected ==> r.family[i].collected)
    ensures |r.checkpoints| == |g.checkpoints|
    ensures forall i :: 0 <= i < |g.checkpoints| ==>
              r.checkpoints[i].(triggered := g.checkpoints[i].triggered) == g.checkpoints[i] &&
              (g.checkpoints[i].triggered ==> r.checkpoints[i].triggered)
    ensures g.ended ==> r.ended && r.summary == g.summary
  {
    if !g.running then g
    else
      var g1 := HandleInput(g, k);
      var g2 := EnemyUpdate(g1);
      var g3 := PumpkinPass(g2);
      var g4 := FamilyPass(g3);
      CheckpointPass(g4)
  }
}
