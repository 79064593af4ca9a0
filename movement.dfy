/** The movement half of a frame: `updatePlayer`, and the position updates
    and off-screen removal of `updateBullets` and `updateZombies`. */
module Movement {
  import opened Entities

  /** One axis of `updatePlayer`: first the step toward zero, taken only
      while the coordinate is positive, then the step away from zero, taken
      only while the far edge (`pos + extent`) is short of `limit`. A step is
      taken whole or not at all; nothing is clamped. */
  function AxisStep(pos: int, extent: int, limit: int, back: bool, forward: bool): (r: int)
    ensures r == pos - PlayerSpeed || r == pos || r == pos + PlayerSpeed
    ensures !back && !forward ==> r == pos
    ensures back && !forward ==> (r == pos - PlayerSpeed <==> pos > 0) && (r == pos <==> pos <= 0)
    ensures forward && !back ==> (r == pos + PlayerSpeed <==> pos + extent < limit) && (r == pos <==> pos + extent >= limit)
    ensures r < pos ==> back && pos > 0
    ensures r > pos ==> forward && pos + extent < limit
    ensures back && forward ==>
              (r == pos + PlayerSpeed <==> pos <= 0 && pos + extent < limit) &&
              (r == pos - PlayerSpeed <==> pos > 0 && pos - PlayerSpeed + extent >= limit)
    ensures -PlayerSpeed < pos && pos + extent < limit + PlayerSpeed ==>
              -PlayerSpeed < r && r + extent < limit + PlayerSpeed
  {
    var p := if back && pos > 0 then pos - PlayerSpeed else pos;
    if forward && p + extent < limit then p + PlayerSpeed else p
  }

  /** A bullet one frame later: it moves right by its own speed. */
  function Advanced(b: Bullet): Bullet
  {
    b.(x := b.x + b.speed)
  }

  /** A zombie one frame later: it moves left by its own speed. */
  function Marched(z: Zombie): Zombie
  {
    z.(x := z.x - z.speed)
  }

  /** Every bullet advanced, in place and in order (game.js:144-146). */
  function AdvanceAll(bs: seq<Bullet>): (r: seq<Bullet>)
    ensures |r| == |bs|
    ensures forall k :: 0 <= k < |bs| ==> r[k] == Advanced(bs[k])
  {
    if bs == [] then [] else [Advanced(bs[0])] + AdvanceAll(bs[1..])
  }

  /** Every zombie marched, in place and in order (game.js:152-154). */
  function MarchAll(zs: seq<Zombie>): (r: seq<Zombie>)
    ensures |r| == |zs|
    ensures forall k :: 0 <= k < |zs| ==> r[k] == Marched(zs[k])
  {
    if zs == [] then [] else [Marched(zs[0])] + MarchAll(zs[1..])
  }

  /** The test `updateBullets` filters with: the bullet's left edge is still
      left of the canvas's right edge (game.js:148). */
  function OnCanvas(width: int): Bullet -> bool
  {
    (b: Bullet) => b.x < width
  }

  /** The test `updateZombies` filters with: a zombie is dropped once its
      right edge is at or left of zero (game.js:157). */
  predicate OnField(z: Zombie)
  {
    !(z.x + z.width <= 0)
  }

  /** A bullet survives `updateBullets` exactly when it is some bullet moved
      by its own speed and its left edge is short of the canvas width. */
  lemma BulletSurvivesIff(bs: seq<Bullet>, width: int, b: Bullet)
    ensures b in Filter(AdvanceAll(bs), OnCanvas(width)) <==>
            b.x < width && exists k :: 0 <= k < |bs| && b == Advanced(bs[k])
  {
    var moved := AdvanceAll(bs);
    assert OnCanvas(width)(b) == (b.x < width);
    if b.x < width && exists k :: 0 <= k < |bs| && b == Advanced(bs[k]) {
      var k :| 0 <= k < |bs| && b == Advanced(bs[k]);
      assert moved[k] == b;
      FilterComplete(moved, OnCanvas(width), b);
    }
    if b in Filter(moved, OnCanvas(width)) {
      FilterSound(moved, OnCanvas(width), b);
      var k :| 0 <= k < |moved| && moved[k] == b;
      assert b == Advanced(bs[k]);
    }
  }

  /** A zombie survives `updateZombies` exactly when it is some zombie moved
      by its own speed whose right edge is still past zero. */
  lemma ZombieSurvivesIff(zs: seq<Zombie>, z: Zombie)
    ensures z in Filter(MarchAll(zs), OnField) <==>
            z.x + z.width > 0 && exists k :: 0 <= k < |zs| && z == Marched(zs[k])
  {
    var moved := MarchAll(zs);
    if z.x + z.width > 0 && exists k :: 0 <= k < |zs| && z == Marched(zs[k]) {
      var k :| 0 <= k < |zs| && z == Marched(zs[k]);
      assert moved[k] == z;
      FilterComplete(moved, OnField, z);
    }
    if z in Filter(moved, OnField) {
      FilterSound(moved, OnField, z);
      var k :| 0 <= k < |moved| && moved[k] == z;
      assert z == Marched(zs[k]);
    }
  }
}
