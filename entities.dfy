/** The entities of the shooter and the small rules several parts of a frame
    share: rectangles and their overlap test, bullets, zombies, the magazine
    capacity formula, the ten-point wound to the player, and the two array
    operations the frame uses (`splice(i, 1)` and `filter`). */
module Entities {

  /** The player's fixed geometry and speed (game.js:18-25). */
  const PlayerWidth := 50
  const PlayerHeight := 70
  const PlayerSpeed := 5
  const PlayerStartX := 60

  /** Bullets are six pixels tall whatever the gun (game.js:246). */
  const BulletHeight := 6

  /** Frames of red flash after a zombie touches the player (game.js:226). */
  const HitFlashFrames := 8

  /** Hit points a zombie costs the player (game.js:158, game.js:225). */
  const WoundDamage := 10

  /** An axis-aligned rectangle: top-left corner and size. */
  datatype Box = Box(x: int, y: int, width: int, height: int)

  /** The collision test of `checkCollisions`: all four edge inequalities
      hold strictly, so rectangles that only touch do not overlap. */
  predicate Overlap(a: Box, b: Box)
  {
    a.x < b.x + b.width && a.x + a.width > b.x &&
    a.y < b.y + b.height && a.y + a.height > b.y
  }

  datatype Bullet = Bullet(x: int, y: int, width: int, height: int, speed: int)
  {
    function Bounds(): Box { Box(x, y, width, height) }
  }

  /** A zombie; `hp` is 1 for a standard zombie and 2 for a tough one when it
      spawns. The source's `alive` flag is never read and is not kept. */
  datatype Zombie = Zombie(x: int, y: int, width: int, height: int, speed: int, hp: int, tough: bool)
  {
    function Bounds(): Box { Box(x, y, width, height) }
  }

  datatype Difficulty = Easy | Medium | Hard

  function BaseCapacity(d: Difficulty): int
  {
    match d
    case Easy => 15
    case Medium => 10
    case Hard => 5
  }

  /** Magazine size at a gun tier: the difficulty's base plus five per tier
      above the first (game.js:262-266, game.js:343-353). */
  function Capacity(d: Difficulty, tier: int): (c: int)
    ensures tier >= 1 ==> c >= 5
  {
    BaseCapacity(d) + (tier - 1) * 5
  }

  /** The bullet `shoot` creates in front of the player (game.js:244-253):
      speed 10 and width 12 at gun level 1, speed 16 and width 20 otherwise. */
  function FiredBullet(gunLevel: int, playerX: int, playerY: int): Bullet
  {
    Bullet(playerX + PlayerWidth + 10,
           playerY + PlayerHeight / 2 - BulletHeight / 2,
           if gunLevel == 1 then 12 else 20,
           BulletHeight,
           if gunLevel == 1 then 10 else 16)
  }

  /** The zombie `spawnZombie` pushes, given the random choices as inputs
      (game.js:172-188): it enters 40 pixels left of the right edge. */
  function SpawnedZombie(canvasWidth: int, tough: bool, y: int, speed: int): (z: Zombie)
    ensures z.hp >= 1 && z.hp == (if tough then 2 else 1) && z.tough == tough
    ensures z.x == canvasWidth - 40 && z.y == y && z.speed == speed
    ensures z.width == 70 && z.height == (if tough then 100 else 75)
  {
    Zombie(canvasWidth - 40, y, 70, if tough then 100 else 75, speed, if tough then 2 else 1, tough)
  }

  /** One wound: ten hit points off, floored at zero. */
  function Wound(hp: int): int
  {
    if hp - WoundDamage < 0 then 0 else hp - WoundDamage
  }

  /** The player's hit points after `k` wounds in a row. */
  function Wounded(hp: int, k: nat): (r: int)
    ensures hp >= 0 ==> 0 <= r <= hp
    decreases k
  {
    if k == 0 then hp else Wounded(Wound(hp), k - 1)
  }

  /** `k` wounds cost `10 * k` hit points, clamped at zero. */
  lemma {:induction false} WoundedClosedForm(hp: int, k: nat)
    requires hp >= 0
    ensures Wounded(hp, k) == if hp - WoundDamage * k < 0 then 0 else hp - WoundDamage * k
    decreases k
  {
    if k > 0 {
      WoundedClosedForm(Wound(hp), k - 1);
    }
  }

  /** One more wound after `k` of them is `k + 1` wounds. */
  lemma {:induction false} WoundedStep(hp: int, k: nat)
    ensures Wounded(hp, k + 1) == Wound(Wounded(hp, k))
    decreases k
  {
    if k > 0 {
      WoundedStep(Wound(hp), k - 1);
    }
  }

  /** JavaScript's `s.splice(i, 1)`: removes the element at `i`, and removes
      nothing when `i` is at or past the end. */
  function Splice<T>(s: seq<T>, i: nat): (r: seq<T>)
    ensures |r| == if i < |s| then |s| - 1 else |s|
    ensures i >= |s| ==> r == s
  {
    if i < |s| then s[..i] + s[i+1..] else s
  }

  /** Splicing removes the one element at `i` and nothing else. */
  lemma SpliceMultiset<T>(s: seq<T>, i: nat)
    ensures i < |s| ==> multiset(Splice(s, i)) + multiset{s[i]} == multiset(s)
    ensures multiset(Splice(s, i)) <= multiset(s)
  {
    if i < |s| {
      assert s == s[..i] + [s[i]] + s[i+1..];
    }
  }

  /** JavaScript's `s.filter(keep)`: the elements that pass, in order. */
  function Filter<T>(s: seq<T>, keep: T -> bool): (r: seq<T>)
    ensures |r| <= |s|
  {
    if s == [] then []
    else
      var rest := Filter(s[..|s| - 1], keep);
      if keep(s[|s| - 1]) then rest + [s[|s| - 1]] else rest
  }

  /** Everything that survives filtering was there and passes the test. */
  lemma {:induction false} FilterSound<T>(s: seq<T>, keep: T -> bool, x: T)
    requires x in Filter(s, keep)
    ensures x in s && keep(x)
  {
    var init := s[..|s| - 1];
    if x != s[|s| - 1] || !keep(x) {
      FilterSound(init, keep, x);
    }
  }

  /** Nothing that passes the test is dropped. */
  lemma {:induction false} FilterComplete<T>(s: seq<T>, keep: T -> bool, x: T)
    requires x in s && keep(x)
    ensures x in Filter(s, keep)
  {
    var init := s[..|s| - 1];
    assert s == init + [s[|s| - 1]];
    if x != s[|s| - 1] {
      FilterComplete(init, keep, x);
    }
  }

  /** Filtering keeps relative order: the survivors of a concatenation are
      the survivors of its first part followed by those of its second. */
  lemma {:induction false} FilterAppend<T>(a: seq<T>, b: seq<T>, keep: T -> bool)
    ensures Filter(a + b, keep) == Filter(a, keep) + Filter(b, keep)
  {
    if b == [] {
      assert a + b == a;
    } else {
      var init := b[..|b| - 1];
      assert (a + b)[..|a + b| - 1] == a + init;
      assert (a + b)[|a + b| - 1] == b[|b| - 1];
      FilterAppend(a, init, keep);
    }
  }

  /** Filtering a prefix one element longer adds that element exactly when
      it passes the test; the loops that implement `filter` step with this. */
  lemma FilterExtend<T>(s: seq<T>, j: nat, keep: T -> bool)
    requires j < |s|
    ensures Filter(s[..j + 1], keep) ==
            Filter(s[..j], keep) + (if keep(s[j]) then [s[j]] else [])
  {
    assert s[..j + 1][..j] == s[..j];
  }
}
