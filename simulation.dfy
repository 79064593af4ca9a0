/** The game state of game.js as one object, and the operations that change
    it: firing and reloading, gun upgrades, difficulty, movement, collisions,
    spawning and the state-changing steps of one animation frame. */
module Simulation {
  import opened Entities
  import opened Movement
  import opened Collisions

  datatype Option<T> = None | Some(value: T)

  /** The random choices `spawnZombie` draws (game.js:167-171), as inputs. */
  datatype SpawnOrder = SpawnOrder(tough: bool, y: int, speed: int)

  class Game {
    const canvasWidth: int
    const canvasHeight: int

    var coins: int
    var gunLevel: int
    var gunUpgradeLevel: int
    var bullets: seq<Bullet>
    var zombies: seq<Zombie>
    var playerHP: int
    var gameOver: bool
    var difficulty: Difficulty
    var playerHitFlash: int
    var playerX: int
    var playerY: int
    var maxBullets: int
    var bulletsLeft: int
    var reloading: bool

    /** What holds in every reachable state. The ammunition bound is only
        promised while no reload is pending; see `AmmoBounded`. */
    ghost predicate Valid()
      reads this
    {
      0 <= coins &&
      1 <= gunUpgradeLevel &&
      maxBullets == Capacity(difficulty, gunUpgradeLevel) &&
      0 <= bulletsLeft && (!reloading ==> bulletsLeft <= maxBullets) &&
      0 <= playerHP <= 100 &&
      0 <= playerHitFlash <= HitFlashFrames &&
      AllAlive(zombies)
    }

    /** The magazine holds no more than its capacity. Every operation keeps
        this except choosing a harder difficulty, whose capacity is smaller,
        while a reload is pending. */
    ghost predicate AmmoBounded()
      reads this
    {
      0 <= bulletsLeft <= maxBullets
    }

    /** What holds between frames: the gun level shown equals the upgrade
        count, which never runs ahead of the coins and has left level 1 once
        the coins reached 100. */
    ghost predicate Settled()
      reads this
    {
      gunLevel == gunUpgradeLevel &&
      gunUpgradeLevel <= coins / 100 + 1 &&
      (gunUpgradeLevel == 1 ==> coins < 100)
    }

    /** The player is never more than one step outside the canvas. */
    ghost predicate PlayerInField()
      reads this
    {
      -PlayerSpeed < playerX && playerX + PlayerWidth < canvasWidth + PlayerSpeed &&
      -PlayerSpeed < playerY && playerY + PlayerHeight < canvasHeight + PlayerSpeed
    }

    function PlayerBounds(): Box
      reads this
    {
      Box(playerX, playerY, PlayerWidth, PlayerHeight)
    }

    function Tally(): Battle
      reads this
    {
      Battle(bullets, zombies, coins, gunLevel)
    }

    function Injuries(): Contact
      reads this
    {
      Contact(zombies, playerHP, playerHitFlash)
    }

    /** The module-level initialisation of game.js (game.js:6-36). */
    constructor (width: int, height: int)
      ensures canvasWidth == width && canvasHeight == height
      ensures coins == 0 && gunLevel == 1 && gunUpgradeLevel == 1
      ensures bullets == [] && zombies == []
      ensures playerHP == 100 && !gameOver && difficulty == Medium && playerHitFlash == 0
      ensures playerX == PlayerStartX && playerY == height / 2
      ensures maxBullets == 10 && bulletsLeft == 10 && !reloading
      ensures Valid() && AmmoBounded() && Settled()
    {
      canvasWidth, canvasHeight := width, height;
      coins, gunLevel, gunUpgradeLevel := 0, 1, 1;
      bullets, zombies := [], [];
      playerHP, gameOver, difficulty, playerHitFlash := 100, false, Medium, 0;
      playerX, playerY := PlayerStartX, height / 2;
      maxBullets, bulletsLeft, reloading := 10, 10, false;
    }

    // -------------------------------------------------------------------
    // Ammunition and reload (game.js:232-256)
    // -------------------------------------------------------------------

    /** `reloadGun` up to the scheduling of its timer: a reload starts only
        when none is pending and the magazine is not full. */
    method StartReload()
      requires Valid()
      modifies this`reloading
      ensures Valid()
      ensures old(AmmoBounded()) ==> AmmoBounded()
      ensures reloading == (old(reloading) || bulletsLeft < maxBullets)
    {
      if !reloading && bulletsLeft < maxBullets {
        reloading := true;
      }
    }

    /** The timer callback of `reloadGun`: it fills the magazine to the
        capacity in force when it fires, not when the reload began. A
        callback is pending exactly while `reloading` is set. */
    method CompleteReload()
      requires Valid() && reloading
      modifies this`bulletsLeft, this`reloading
      ensures Valid() && AmmoBounded()
      ensures bulletsLeft == maxBullets && !reloading
    {
      bulletsLeft := maxBullets;
      reloading := false;
    }

    /** `shoot`: refused while reloading or empty; otherwise one bullet
        appears in front of the player, the magazine loses one round, and the
        last round starts a reload. */
    method Shoot()
      requires Valid()
      modifies this`bullets, this`bulletsLeft, this`reloading
      ensures Valid()
      ensures old(AmmoBounded()) ==> AmmoBounded()
      ensures old(reloading || bulletsLeft <= 0) ==>
                bullets == old(bullets) && bulletsLeft == old(bulletsLeft) && reloading == old(reloading)
      ensures !old(reloading) && old(bulletsLeft) > 0 ==>
                bullets == old(bullets) + [FiredBullet(gunLevel, playerX, playerY)] &&
                bulletsLeft == old(bulletsLeft) - 1 &&
                reloading == (bulletsLeft == 0)
    {
      if reloading || bulletsLeft <= 0 {
        return;
      }
      bullets := bullets + [FiredBullet(gunLevel, playerX, playerY)];
      bulletsLeft := bulletsLeft - 1;
      if bulletsLeft == 0 {
        StartReload();
      }
    }

    // -------------------------------------------------------------------
    // Capacity and upgrades (game.js:258-270, game.js:339-356)
    // -------------------------------------------------------------------

    /** `upgradeGun`: one more tier, five more rounds of capacity, and a full
        magazine unless a reload is pending (which will fill the new size). */
    method UpgradeGun()
      requires Valid()
      modifies this`gunUpgradeLevel, this`gunLevel, this`maxBullets, this`bulletsLeft
      ensures Valid()
      ensures old(AmmoBounded()) ==> AmmoBounded()
      ensures gunUpgradeLevel == old(gunUpgradeLevel) + 1 && gunLevel == gunUpgradeLevel
      ensures maxBullets == Capacity(difficulty, gunUpgradeLevel) && maxBullets == old(maxBullets) + 5
      ensures bulletsLeft == if reloading then old(bulletsLeft) else maxBullets
    {
      gunUpgradeLevel := gunUpgradeLevel + 1;
      gunLevel := gunUpgradeLevel;
      maxBullets := Capacity(difficulty, gunUpgradeLevel);
      if !reloading {
        bulletsLeft := maxBullets;
      }
    }

    /** The start button's choice of difficulty (game.js:330) followed by the
        capacity part of `applyDifficulty`. With the difficulty unchanged the
        magazine stays bounded; a harder one, whose capacity is smaller,
        chosen while a reload is pending can leave more rounds than capacity until the reload completes. */
    method ApplyDifficulty(d: Difficulty)
      requires Valid()
      modifies this`difficulty, this`maxBullets, this`bulletsLeft
      ensures Valid()
      ensures difficulty == d && maxBullets == Capacity(d, gunUpgradeLevel)
      ensures bulletsLeft == if reloading then old(bulletsLeft) else maxBullets
      ensures old(AmmoBounded()) && d == old(difficulty) ==> AmmoBounded()
      ensures !reloading ==> AmmoBounded()
      ensures reloading ==> (AmmoBounded() <==> old(bulletsLeft) <= maxBullets)
    {
      difficulty := d;
      maxBullets := Capacity(d, gunUpgradeLevel);
      if !reloading {
        bulletsLeft := maxBullets;
      }
    }

    // -------------------------------------------------------------------
    // Movement (game.js:136-164)
    // -------------------------------------------------------------------

    /** `updatePlayer` with the held arrow keys as inputs. */
    method UpdatePlayer(up: bool, down: bool, left: bool, right: bool)
      modifies this`playerX, this`playerY
      ensures playerY == AxisStep(old(playerY), PlayerHeight, canvasHeight, up, down)
      ensures playerX == AxisStep(old(playerX), PlayerWidth, canvasWidth, left, right)
      ensures old(PlayerInField()) ==> PlayerInField()
    {
      if up && playerY > 0 { playerY := playerY - PlayerSpeed; }
      if down && playerY + PlayerHeight < canvasHeight { playerY := playerY + PlayerSpeed; }
      if left && playerX > 0 { playerX := playerX - PlayerSpeed; }
      if right && playerX + PlayerWidth < canvasWidth { playerX := playerX + PlayerSpeed; }
    }

    /** `updateBullets`: every bullet moves by its own speed, then those whose
        left edge reached the canvas width are dropped, order kept. */
    method UpdateBullets()
      modifies this`bullets
      ensures bullets == Filter(AdvanceAll(old(bullets)), OnCanvas(canvasWidth))
    {
      var i := 0;
      while i < |bullets|
        invariant 0 <= i <= |bullets| == |old(bullets)|
        invariant forall k :: 0 <= k < i ==> bullets[k] == Advanced(old(bullets)[k])
        invariant forall k :: i <= k < |bullets| ==> bullets[k] == old(bullets)[k]
      {
        var b := bullets[i];
        bullets := bullets[i := b.(x := b.x + b.speed)];
        i := i + 1;
      }
      var moved := bullets;
      assert moved == AdvanceAll(old(bullets));
      var kept: seq<Bullet> := [];
      var j := 0;
      while j < |moved|
        invariant 0 <= j <= |moved|
        invariant kept == Filter(moved[..j], OnCanvas(canvasWidth))
      {
        FilterExtend(moved, j, OnCanvas(canvasWidth));
        if moved[j].x < canvasWidth {
          kept := kept + [moved[j]];
        }
        j := j + 1;
      }
      assert moved[..j] == moved;
      bullets := kept;
    }

    /** The `forEach` of `updateZombies`: each zombie moves left by its own
        speed, in place. */
    method MarchZombies()
      modifies this`zombies
      ensures zombies == MarchAll(old(zombies))
    {
      var i := 0;
      while i < |zombies|
        invariant 0 <= i <= |zombies| == |old(zombies)|
        invariant forall k :: 0 <= k < i ==> zombies[k] == Marched(old(zombies)[k])
        invariant forall k :: i <= k < |zombies| ==> zombies[k] == old(zombies)[k]
      {
        var z := zombies[i];
        zombies := zombies[i := z.(x := z.x - z.speed)];
        i := i + 1;
      }
    }

    /** `updateZombies`: every zombie moves by its own speed, then those whose
        right edge is at or left of zero are dropped, order kept, each costing
        the player one wound. */
    method UpdateZombies()
      requires Valid()
      modifies this`zombies, this`playerHP
      ensures Valid()
      ensures zombies == Filter(MarchAll(old(zombies)), OnField)
      ensures playerHP == Wounded(old(playerHP), |old(zombies)| - |zombies|)
    {
      MarchZombies();
      var kept, hp := DropPassed(zombies, playerHP);
      MarchKeepsAlive(old(zombies));
      zombies, playerHP := kept, hp;
    }

    // -------------------------------------------------------------------
    // Collisions (game.js:191-230)
    // -------------------------------------------------------------------

    /** The body of the inner `forEach` when bullet index `bi` and zombie
        index `zi` overlap (game.js:201-212). */
    method HitZombie(bi: nat, zi: nat)
      requires zi < |zombies|
      modifies this`bullets, this`zombies, this`coins, this`gunLevel
      ensures Tally() == Hit(old(Tally()), bi, zi)
    {
      ghost var st := Tally();
      var zombie := zombies[zi].(hp := zombies[zi].hp - 1);
      zombies := zombies[zi := zombie];
      bullets := Splice(bullets, bi);
      if zombie.hp <= 0 {
        zombies := Splice(zombies, zi);
        coins := coins + 1;
        if coins == 100 && gunLevel == 1 {
          gunLevel := 2;
        }
        assert Hit(st, bi, zi) == Battle(bullets, zombies, coins, gunLevel);
      } else {
        assert Hit(st, bi, zi) == Battle(bullets, zombies, coins, gunLevel);
      }
    }

    /** The inner `zombies.forEach` of `checkCollisions` for the bullet
        captured at index `bi`: it keeps testing that bullet even after a hit
        has spliced it out. */
    method SweepZombies(bullet: Bullet, bi: nat)
      modifies this`bullets, this`zombies, this`coins, this`gunLevel
      ensures Tally() == ZombieSweep(bullet, bi, 0, old(Tally()))
    {
      var zi := 0;
      while zi < |zombies|
        invariant ZombieSweep(bullet, bi, zi, Tally()) == ZombieSweep(bullet, bi, 0, old(Tally()))
        decreases |zombies| - zi
      {
        if Overlap(bullet.Bounds(), zombies[zi].Bounds()) {
          HitZombie(bi, zi);
        }
        zi := zi + 1;
      }
    }

    /** The bullet-versus-zombie half of `checkCollisions`: the outer
        `bullets.forEach`, index by index, over an array the inner loop
        splices. */
    method ResolveBulletHits()
      requires AllAlive(zombies)
      modifies this`bullets, this`zombies, this`coins, this`gunLevel
      ensures Tally() == BulletSweep(0, old(Tally()))
      ensures Accounts(old(Tally()), Tally())
    {
      var bi := 0;
      while bi < |bullets|
        invariant BulletSweep(bi, Tally()) == BulletSweep(0, old(Tally()))
        decreases |bullets| - bi
      {
        SweepZombies(bullets[bi], bi);
        bi := bi + 1;
      }
      BulletSweepAccounts(0, old(Tally()));
    }

    /** The zombie-versus-player half of `checkCollisions`. */
    method ResolvePlayerContacts()
      modifies this`zombies, this`playerHP, this`playerHitFlash
      ensures Injuries() == ContactSweep(PlayerBounds(), 0, old(Injuries()))
      ensures Bruised(PlayerBounds(), old(Injuries()), Injuries())
    {
      var zi := 0;
      while zi < |zombies|
        invariant ContactSweep(PlayerBounds(), zi, Injuries()) == ContactSweep(PlayerBounds(), 0, old(Injuries()))
        decreases |zombies| - zi
      {
        var zombie := zombies[zi];
        if Overlap(PlayerBounds(), zombie.Bounds()) {
          zombies := Splice(zombies, zi);
          playerHP := playerHP - WoundDamage;
          playerHitFlash := HitFlashFrames;
          if playerHP < 0 { playerHP := 0; }
        }
        zi := zi + 1;
      }
      ContactSweepBruises(PlayerBounds(), 0, old(Injuries()));
    }

    /** `checkCollisions`: bullets against zombies, then zombies against the
        player. Coins move only in the first half, the player's hit points and
        flash only in the second. */
    method CheckCollisions()
      requires Valid()
      modifies this`bullets, this`zombies, this`coins, this`gunLevel, this`playerHP, this`playerHitFlash
      ensures Valid()
      ensures var mid := BulletSweep(0, old(Tally()));
              bullets == mid.bullets && coins == mid.coins && gunLevel == mid.gunLevel &&
              Injuries() == ContactSweep(PlayerBounds(), 0, Contact(mid.zombies, old(playerHP), old(playerHitFlash)))
      ensures coins >= old(coins) && playerHP <= old(playerHP)
      ensures playerHitFlash == HitFlashFrames || playerHitFlash == old(playerHitFlash)
      ensures gunLevel == (if old(gunLevel) == 1 && old(coins) < 100 <= coins then 2 else old(gunLevel))
    {
      ResolveBulletHits();
      ghost var mid := Tally();
      ResolvePlayerContacts();
      AliveWithin(zombies, mid.zombies);
    }

    // -------------------------------------------------------------------
    // Spawning and the frame (game.js:166-189, game.js:272-306)
    // -------------------------------------------------------------------

    /** The structural part of `spawnZombie`, with the random choices given. */
    method SpawnZombie(order: SpawnOrder)
      requires Valid()
      modifies this`zombies
      ensures Valid()
      ensures zombies == old(zombies) + [SpawnedZombie(canvasWidth, order.tough, order.y, order.speed)]
    {
      zombies := zombies + [SpawnedZombie(canvasWidth, order.tough, order.y, order.speed)];
    }

    /** What holds between `checkCollisions` and the upgrade check of the
        same frame: the upgrade count still trails the coins by at most one
        tier, and the gun level is 2 early only when the coins reached 100 at
        the first tier. */
    ghost predicate Collided()
      reads this
    {
      gunUpgradeLevel <= coins / 100 + 1 &&
      gunLevel == (if gunUpgradeLevel == 1 && coins >= 100 then 2 else gunUpgradeLevel)
    }

    /** The movement steps of `gameLoop` (game.js:278-280). */
    method Move(up: bool, down: bool, left: bool, right: bool)
      requires Valid()
      modifies this`playerX, this`playerY, this`bullets, this`zombies, this`playerHP
      ensures Valid()
      ensures old(PlayerInField()) ==> PlayerInField()
      ensures playerHP <= old(playerHP)
    {
      UpdatePlayer(up, down, left, right);
      UpdateBullets();
      UpdateZombies();
    }

    /** The steps of `gameLoop` after spawning (game.js:289-303): at most
        one gun upgrade, taken exactly when the coins call for a higher tier;
        the game-over check, which returns before the flash countdown; and
        the countdown, which stops at zero. */
    method EndFrame()
      requires Valid() && Collided()
      modifies this`gunUpgradeLevel, this`gunLevel, this`maxBullets, this`bulletsLeft,
               this`gameOver, this`playerHitFlash
      ensures Valid() && Settled()
      ensures old(AmmoBounded()) ==> AmmoBounded()
      ensures gunUpgradeLevel == old(gunUpgradeLevel) + (if coins / 100 + 1 > old(gunUpgradeLevel) then 1 else 0)
      ensures maxBullets == Capacity(difficulty, gunUpgradeLevel)
      ensures bulletsLeft == if gunUpgradeLevel > old(gunUpgradeLevel) && !reloading then maxBullets else old(bulletsLeft)
      ensures gameOver == (playerHP == 0 || old(gameOver))
      ensures playerHP == 0 ==> playerHitFlash == old(playerHitFlash)
      ensures playerHP != 0 ==> playerHitFlash == (if old(playerHitFlash) > 0 then old(playerHitFlash) - 1 else 0)
    {
      var expectedLevel := coins / 100 + 1;
      if expectedLevel > gunUpgradeLevel {
        UpgradeGun();
      }
      if playerHP <= 0 {
        gameOver := true;
        return;
      }
      if playerHitFlash > 0 {
        playerHitFlash := playerHitFlash - 1;
      }
    }

    /** The state-changing steps of one `gameLoop` call: movement,
        collisions, the spawn chosen by the caller, then `EndFrame`. Once
        `gameOver` is set no further frame is scheduled. */
    method Frame(up: bool, down: bool, left: bool, right: bool, spawn: Option<SpawnOrder>)
      requires Valid() && Settled() && !gameOver
      modifies this`playerX, this`playerY, this`bullets, this`zombies, this`coins, this`gunLevel,
               this`gunUpgradeLevel, this`maxBullets, this`bulletsLeft, this`playerHP,
               this`gameOver, this`playerHitFlash
      ensures Valid() && Settled()
      ensures old(AmmoBounded()) ==> AmmoBounded()
      ensures old(PlayerInField()) ==> PlayerInField()
      ensures difficulty == old(difficulty) && reloading == old(reloading)
      ensures bulletsLeft == if gunUpgradeLevel > old(gunUpgradeLevel) && !reloading then maxBullets else old(bulletsLeft)
      ensures gameOver <==> playerHP == 0
      ensures coins >= old(coins) && playerHP <= old(playerHP)
      ensures gunUpgradeLevel == old(gunUpgradeLevel) + (if coins / 100 + 1 > old(gunUpgradeLevel) then 1 else 0)
      ensures gameOver ==> playerHitFlash == HitFlashFrames || playerHitFlash == old(playerHitFlash)
      ensures !gameOver ==> playerHitFlash == HitFlashFrames - 1 ||
                            playerHitFlash == (if old(playerHitFlash) > 0 then old(playerHitFlash) - 1 else 0)
    {
      Move(up, down, left, right);
      CheckCollisions();
      if spawn.Some? {
        SpawnZombie(spawn.value);
      }
      EndFrame();
    }
  }

  /** The `filter` of `updateZombies` with its side effect: the zombies
      whose right edge is still past zero, in order, and the player's hit
      points after one wound per zombie dropped. */
  method DropPassed(moved: seq<Zombie>, hp: int) returns (kept: seq<Zombie>, hpAfter: int)
    ensures kept == Filter(moved, OnField)
    ensures hpAfter == Wounded(hp, |moved| - |kept|)
  {
    kept, hpAfter := [], hp;
    var j := 0;
    while j < |moved|
      invariant 0 <= j <= |moved| && |kept| <= j
      invariant kept == Filter(moved[..j], OnField)
      invariant hpAfter == Wounded(hp, j - |kept|)
    {
      FilterExtend(moved, j, OnField);
      if !OnField(moved[j]) {
        assert Filter(moved[..j + 1], OnField) == kept;
        WoundedStep(hp, j - |kept|);
        hpAfter := Wound(hpAfter);
      } else {
        assert Filter(moved[..j + 1], OnField) == kept + [moved[j]];
        kept := kept + [moved[j]];
      }
      j := j + 1;
    }
    assert moved[..j] == moved;
  }

  /** Moving and dropping zombies leaves only live ones. */
  lemma MarchKeepsAlive(zs: seq<Zombie>)
    requires AllAlive(zs)
    ensures AllAlive(Filter(MarchAll(zs), OnField))
  {
    forall z | z in Filter(MarchAll(zs), OnField) ensures z.hp >= 1 {
      ZombieSurvivesIff(zs, z);
      var k :| 0 <= k < |zs| && z == Marched(zs[k]);
      assert zs[k] in zs;
    }
  }

  /** Removing zombies keeps the rest alive. */
  lemma AliveWithin(a: seq<Zombie>, b: seq<Zombie>)
    requires multiset(a) <= multiset(b) && AllAlive(b)
    ensures AllAlive(a)
  {
    forall z | z in a ensures z.hp >= 1 {
      assert z in multiset(a);
    }
  }

  /** Medium difficulty from a fresh start: ten shots empty the magazine and
      start a reload, and the reload fills it back to ten. */
  method MagazineScenario() returns (leftAfterTen: int, reloadingAfterTen: bool, leftAfterReload: int)
    ensures leftAfterTen == 0 && reloadingAfterTen && leftAfterReload == 10
  {
    var g := new Game(800, 600);
    g.ApplyDifficulty(Medium);
    var shots := 0;
    while shots < 10
      invariant 0 <= shots <= 10
      invariant g.Valid() && g.maxBullets == 10
      invariant g.bulletsLeft == 10 - shots && g.reloading == (shots == 10)
    {
      g.Shoot();
      shots := shots + 1;
    }
    leftAfterTen, reloadingAfterTen := g.bulletsLeft, g.reloading;
    g.CompleteReload();
    leftAfterReload := g.bulletsLeft;
  }
}
