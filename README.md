# Zombie shooter simulation core, modelled in Dafny

The game (`game.js`) is a side-scrolling canvas shooter. The player moves
with the arrow keys and fires bullets to the right from a magazine that
reloads on a timer. Zombies spawn at the right edge and walk left. A bullet
costs a zombie one hit point, and each zombie killed pays a coin. Every
hundred coins raise the gun tier, and each tier adds five rounds to the
magazine. Only leaving tier 1 changes the bullet: from tier 2 on it is
faster and wider, and it stays the same at every higher tier. A zombie
that reaches the player or walks off the left edge costs the player ten
hit points. The game ends at zero hit points.

The model has four modules:

- `Entities` (`entities.dfy`): rectangles and their strict overlap test;
  bullets and zombies; the magazine capacity formula; the wound that costs
  10 hit points, floored at 0; and JavaScript's `splice(i, 1)` and `filter`
  on sequences.
- `Movement` (`movement.dfy`): one axis of `updatePlayer`, how bullets and
  zombies move, and the two `filter` tests.
- `Collisions` (`collisions.dfy`): `checkCollisions` as tail-recursive
  sweeps, one step per array index visited, with the lemmas that state what
  the sweeps guarantee.
- `Simulation` (`simulation.dfy`): class `Game`, which holds the game's
  global variables as fields. Its methods change the state the way the
  functions of `game.js` do, and each is proved against the functions and
  invariants above.

The model keeps `checkCollisions` exactly as written. `forEach` visits
index `k` only while `k` is below the array's current length, so after a
`splice` the next element slides into the current index and is never
visited (`Collisions.SkipAfterKillExample`). The inner loop keeps testing
the bullet it captured after that bullet was spliced out. Each later hit
splices whatever bullet now sits at that index, so a bullet that touched
nothing can vanish (`Collisions.StaleSpliceExample`). The `Game` methods
loop over indices with `while` and are proved equal to the sweeps.

In several places the code does something other than what one would
expect of the game, and the model follows the code:

- **Ammunition bound.** One would expect the magazine never to hold more
  than its capacity. In the code, choosing a harder difficulty, whose
  capacity is smaller, while a reload is pending leaves more rounds than the new capacity until the reload
  completes. So `Game.Valid` only bounds the magazine when no reload is
  pending. `Game.AmmoBounded` is kept by every other operation.
- **Player bounds.** One would expect the player to stay inside the
  field. The code tests the position before the step, so the player can
  end up to 4 pixels past an edge. `Game.PlayerInField` states the bound
  that holds.
- **Bullet removal.** One would expect a bullet to go once its leading
  (right) edge passes the width. The code removes it once its
  left edge `x` reaches the width, and `filter` keeps the order.
- **Hit processing.** One would expect every overlapping bullet/zombie
  pair to be processed. The code skips the element after each removal and
  can remove bullets that hit nothing, as described above.
- **Tier upgrades.** One would expect the tier always to equal the coins
  divided by 100, plus one. The code raises the tier by at most one per
  frame. A frame that pays many coins leaves the tier behind (never
  ahead), and the following frames catch up.
  `Game.Settled` states this, and `Game.EndFrame` upgrades exactly when
  the tier is behind.
- **Early gun level.** `checkCollisions` sets the gun level to 2 on the
  100th coin, before `upgradeGun` runs in the same frame.
  `Game.Collided` states the state in between.

## Model

| member | source | states |
|---|---|---|
| Entities.Capacity | game.js:262-266 | the magazine of tier 1 or higher holds at least five rounds, the hard base |
| Entities.SpawnedZombie | game.js:172-188 | a spawned zombie enters 40 pixels left of the right edge at the given y and speed, keeps the toughness flag, is 70 wide and 100 tall if tough and 75 otherwise, and has 2 hit points if tough and 1 otherwise |
| Entities.Overlap | game.js:195-199 | definition: the strict four-edge overlap test, the same one the contact loop uses (game.js:218-222); `ZombieSweep`, `ContactSweep` and the `...HitIff` and `...Idle` lemmas are stated with it |
| Entities.FiredBullet | game.js:244-253 | definition: the bullet `shoot` pushes (speed 10 and width 12 at gun level 1, 16 and 20 otherwise, 6 tall, in front of the player); `Game.Shoot`'s ensures states that exactly this bullet is appended |
| Entities.Wound | game.js:158-159 | definition: one 10-point wound floored at 0, as in both removal paths (also game.js:225-227); `Wounded`, `WoundedClosedForm`, `ContactSweep` and `DropPassed` are stated with it |
| Entities.Wounded | game.js:156-163 | after any number of 10-point wounds with the floor at 0, hit points stay between 0 and their starting value |
| Entities.WoundedClosedForm | game.js:158-159 | `k` wounds cost exactly `10 * k` hit points, clamped at 0 |
| Entities.WoundedStep | game.js:225-227 | one more wound after `k` wounds equals `k + 1` wounds, so the wounds of both removal paths count in one tally |
| Entities.Splice | game.js:203 | `splice(i, 1)` shortens the array by one when `i` is inside it and is a no-op at or past the end |
| Entities.SpliceMultiset | game.js:205 | splicing index `i` removes exactly the element at `i` and nothing else |
| Entities.Filter | game.js:148 | filtering never lengthens the array |
| Entities.FilterSound | game.js:156-163 | every survivor of `filter` was in the array and passes the test |
| Entities.FilterComplete | game.js:148 | no element that passes the test is dropped |
| Entities.FilterAppend | game.js:148 | filtering keeps relative order: the survivors of a concatenation are the survivors of each part, in order |
| Entities.FilterExtend | game.js:156-163 | one more element adds itself to the survivors exactly when it passes the test |
| Movement.AxisStep | game.js:136-141 | each axis moves by exactly one step or not at all; a step toward zero needs that key and a positive coordinate, and a step away needs that key and the far edge short of the canvas; with one key held the step happens iff its condition holds; with both held the net step is +5 iff the back step was not taken and the far edge is short, and -5 iff the back step was taken and the far edge then reaches the canvas; a player at most one step outside the field stays so |
| Movement.Advanced | game.js:145 | definition: a bullet moved right by its own speed, nothing else changed; `AdvanceAll` and `Game.UpdateBullets` are stated with it |
| Movement.Marched | game.js:153 | definition: a zombie moved left by its own speed, nothing else changed; `MarchAll` and `Game.MarchZombies` are stated with it |
| Movement.OnCanvas | game.js:148 | definition: the `filter` test of `updateBullets`, `x` below the canvas width; `Game.UpdateBullets` and `BulletSurvivesIff` are stated with it |
| Movement.OnField | game.js:157 | definition: the `filter` test of `updateZombies`, right edge past 0; `DropPassed`, `Game.UpdateZombies` and `ZombieSurvivesIff` are stated with it |
| Movement.AdvanceAll | game.js:144-146 | every bullet moves right by its own speed, in place and in order |
| Movement.MarchAll | game.js:152-154 | every zombie moves left by its own speed, in place and in order |
| Movement.BulletSurvivesIff | game.js:143-149 | a bullet remains after `updateBullets` iff it is an old bullet moved by its speed whose `x` is below the canvas width |
| Movement.ZombieSurvivesIff | game.js:151-164 | a zombie remains after `updateZombies` iff it is an old zombie moved by its speed whose right edge is past 0 |
| Collisions.Hit | game.js:201-212 | one hit never lengthens either array |
| Collisions.WornAfterHit | game.js:202 | after the hit zombie loses a point, every zombie is an old one with at most fewer hit points |
| Collisions.HitAccounts | game.js:201-212 | one hit takes one hit point off the zombie at `zi` and leaves every other zombie as it was (the new zombies are a sub-multiset of the old array with that one point taken); the zombie is removed, paying a coin, iff it had exactly one hit point left; at most one bullet goes; every zombie stays alive; gun level 2 is set exactly at 100 coins on level 1 |
| Collisions.ZombieSweep | game.js:194-214 | the inner loop for one captured bullet never lengthens either array |
| Collisions.BulletSweep | game.js:193-215 | the bullet-versus-zombie loop never lengthens either array |
| Collisions.ZombieSweepAccounts | game.js:194-214 | the inner loop keeps the bookkeeping of `Accounts`: each zombie left is an old zombie in the same place that has at most lost hit points, one coin per zombie removed, no more bullets removed than hit points dealt, bullets only removed, and the gun-level rule |
| Collisions.BulletSweepAccounts | game.js:193-215 | the whole bullet loop keeps the bookkeeping: each zombie left is an old zombie unmoved that has at most lost hit points, one coin per zombie removed, coins never fall, each vanished bullet is paid for by a hit point of damage, bullets are only removed, and the gun level becomes 2 exactly when level 1 passes 100 coins |
| Collisions.ZombieSweepIdle | game.js:195-200 | a bullet that overlaps none of the remaining zombies changes nothing |
| Collisions.ZombieSweepNoHeal | game.js:194-214 | the inner loop keeps the zombies alive and never restores hit points |
| Collisions.BulletSweepNoHeal | game.js:193-215 | the whole bullet loop never restores hit points |
| Collisions.ZombieSweepHitIff | game.js:195-202 | the captured bullet deals damage iff it overlaps some zombie at or after the start index |
| Collisions.BulletSweepIdle | game.js:193-200 | with no overlapping bullet/zombie pair the first loop changes nothing |
| Collisions.BulletSweepHitIff | game.js:193-215 | zombies take damage iff some bullet at or after the start overlaps some zombie |
| Collisions.SkipAfterKillExample | game.js:204-205 | killing the first of two overlapped zombies skips the second, which slid into the visited index |
| Collisions.StaleSpliceExample | game.js:202-203 | after its own splice the captured bullet hits again and removes a bullet that touched no zombie |
| Collisions.ContactSweep | game.js:217-229 | the contact loop never lengthens the zombie array |
| Collisions.ContactSweepBruises | game.js:217-229 | the contact loop deals one wound per zombie removed, sets the flash to 8 iff something was removed, only removes zombies, and removes only zombies that overlap the player |
| Collisions.ContactSweepIff | game.js:217-223 | the player is hurt by contact iff some zombie overlaps the player |
| Simulation.Game.constructor | game.js:6-36 | the initial state: 0 coins, gun level 1, empty arrays, 100 HP, medium difficulty, a full magazine of 10, player at (60, height / 2); it is valid, bounded and settled |
| Simulation.Game.StartReload | game.js:232-234 | a reload is pending afterwards iff one was pending or the magazine is not full; the invariants are kept |
| Simulation.Game.CompleteReload | game.js:235-238 | the timer fills the magazine to the capacity in force when it fires and clears the pending flag |
| Simulation.Game.Shoot | game.js:242-256 | refused, with nothing changed, while reloading or empty; otherwise appends the bullet for the current gun level and player position, takes one round, and starts a reload exactly when the magazine is then empty |
| Simulation.Game.UpgradeGun | game.js:258-270 | tier and gun level go up by one, capacity becomes the formula for the new tier (five more), and the magazine refills unless a reload is pending |
| Simulation.Game.ApplyDifficulty | game.js:339-356 | capacity follows the chosen difficulty; the magazine refills unless a reload is pending; it stays bounded unless a reload is pending and holds more than the new capacity |
| Simulation.Game.UpdatePlayer | game.js:136-141 | the new position is `AxisStep` on each axis with the held keys; a player at most one step outside the field stays so |
| Simulation.Game.UpdateBullets | game.js:143-149 | the new bullets are exactly the old ones moved and then filtered on `x` below the width |
| Simulation.Game.MarchZombies | game.js:152-154 | the zombies are the old ones each moved left by its speed |
| Simulation.DropPassed | game.js:156-163 | the kept zombies are exactly those whose right edge is past 0, and the player takes one wound per zombie dropped |
| Simulation.MarchKeepsAlive | game.js:151-164 | moving and dropping zombies leaves only zombies with hit points |
| Simulation.Game.UpdateZombies | game.js:151-164 | the new zombies are the old ones moved and filtered on their right edge; hit points drop by one wound per zombie removed; the invariants are kept |
| Simulation.Game.HitZombie | game.js:201-212 | one hit changes bullets, zombies, coins and gun level exactly as `Hit` |
| Simulation.Game.SweepZombies | game.js:194-214 | the inner `forEach` over the spliced zombie array equals `ZombieSweep` for the captured bullet |
| Simulation.Game.ResolveBulletHits | game.js:193-215 | the outer `forEach` equals `BulletSweep` and so keeps its bookkeeping |
| Simulation.Game.ResolvePlayerContacts | game.js:217-229 | the contact `forEach` equals `ContactSweep` and keeps the `Bruised` bookkeeping |
| Simulation.AliveWithin | game.js:224 | removing zombies keeps every remaining one alive |
| Simulation.Game.CheckCollisions | game.js:191-230 | the state is the bullet sweep followed by the contact sweep on its zombies; coins never fall, HP never rises, the flash is 8 or unchanged, the gun level rule holds, and the invariants are kept |
| Simulation.Game.SpawnZombie | game.js:166-189 | exactly one zombie, built from the given random choices, is appended at the right edge |
| Simulation.Game.Move | game.js:278-280 | movement keeps the invariants and the player bound and never raises HP |
| Simulation.Game.EndFrame | game.js:289-303 | one upgrade exactly when the coins call for a higher tier; after an upgrade the capacity is the new tier's and the magazine is refilled unless a reload is pending, and otherwise the magazine is unchanged; game over iff HP is 0; the flash counts down toward 0 only when the game goes on; the state is settled afterwards |
| Simulation.Game.Frame | game.js:278-303 | one frame from a settled running state ends settled and valid, keeps the magazine and player bounds, keeps the difficulty and the reload flag, refills the magazine exactly when it upgrades with no reload pending and otherwise leaves it, ends the game iff HP is 0, never lowers coins or raises HP, upgrades exactly when the coins call for it, and leaves the flash at 7 or counted down while the game goes on, and at 8 or unchanged on the frame that ends it |
| Simulation.MagazineScenario | game.js:232-256 | on medium from a fresh start, ten shots empty the magazine and start a reload, and the reload refills it to ten |

## Left out

- Drawing, images, the HUD text written into the DOM and the game-over text: they only read the state.
- Keyboard listeners: the held arrow keys are parameters of `Game.UpdatePlayer`, `Game.Move` and `Game.Frame`. A caller issues the space and `r` key presses as `Game.Shoot` and `Game.StartReload`.
- `Math.random`, the spawn timestamp `lastZombieSpawn` and the 1000–1500 ms spawn interval: the caller of `Game.Frame` decides whether a zombie spawns, and a `SpawnOrder` gives its toughness, its `y` and its speed.
- Fractional speeds and positions: zombie speeds (0.7 base, the coin bonus, the 0.6 factor for tough zombies) are integer inputs. `zombieBaseSpeed` and `zombieSpeedIncrease`, which `applyDifficulty` sets, only feed that speed and are not modelled.
- `setTimeout` and `requestAnimationFrame`: a pending reload timer is the `reloading` flag, and `Game.CompleteReload` is its callback. Successive `Game.Frame` calls are the animation frames, and none follows game over. `reloadTime` and `reloadTimeout` are not kept.
- The canvas size comes from the HTML page, which is not part of this model. It is a constructor parameter, and the player's starting `y` is `height / 2` rounded down.
- Difficulty strings other than easy, medium and hard: the model assumes the page's selector offers only these three. For any other string `applyDifficulty` would leave the capacity unchanged.
- The zombie's `alive` field: it is never read.
- Simulation.Game.Frame: states the flash as one of two values without saying which applies: 7 or last frame's value counted down while the game goes on, and 8 or unchanged on the frame that ends it. It gives the player position, coins and HP only as bounds; `Game.UpdatePlayer`, `Game.CheckCollisions` and `Game.UpdateZombies` state them exactly. It does not restate the new bullet and zombie arrays, which the per-step methods state.
- Simulation.Game.Move: states only the invariants, the player bound and that HP does not rise. The exact new positions and arrays are stated by `Game.UpdatePlayer`, `Game.UpdateBullets` and `Game.UpdateZombies`.
- Entities.Capacity: its contract states only the lower bound. The formula's per-tier growth of five rounds is stated by `Game.UpgradeGun`.
