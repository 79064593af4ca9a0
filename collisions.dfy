/** `checkCollisions` as written: two `forEach` loops that `splice` the
    arrays they walk. A `forEach` visits index `k` only while `k` is below the
    array's current length, so after a removal the next element slides into
    the current index and is skipped. The bullet-versus-zombie loop keeps
    testing the bullet it captured even after splicing it out, and every
    further hit splices whatever bullet then sits at that index.

    The sweeps below are tail-recursive definitions of those loops, one step
    per visited index; the methods of `Simulation.Game` are proved equal to
    them, and the lemmas state what the sweeps guarantee. */
module Collisions {
  import opened Entities

  /** What the bullet-versus-zombie loop reads and writes. */
  datatype Battle = Battle(bullets: seq<Bullet>, zombies: seq<Zombie>, coins: int, gunLevel: int)

  /** What the zombie-versus-player loop writes. */
  datatype Contact = Contact(zombies: seq<Zombie>, hp: int, flash: int)

  /** Every zombie on the field still has a hit point: one whose hp reaches
      zero is spliced out on the spot. */
  ghost predicate AllAlive(zs: seq<Zombie>)
  {
    forall z :: z in zs ==> z.hp >= 1
  }

  /** The hit points left among the zombies. */
  function HpSum(zs: seq<Zombie>): int
  {
    if zs == [] then 0 else zs[0].hp + HpSum(zs[1..])
  }

  lemma {:induction false} HpSumAppend(a: seq<Zombie>, b: seq<Zombie>)
    ensures HpSum(a + b) == HpSum(a) + HpSum(b)
  {
    if a != [] {
      assert (a + b)[0] == a[0];
      assert (a + b)[1..] == a[1..] + b;
      HpSumAppend(a[1..], b);
    } else {
      assert a + b == b;
    }
  }

  lemma HpSumAt(s: seq<Zombie>, i: nat)
    requires i < |s|
    ensures HpSum(s) == HpSum(s[..i]) + s[i].hp + HpSum(s[i+1..])
  {
    assert s == s[..i] + ([s[i]] + s[i+1..]);
    HpSumAppend(s[..i], [s[i]] + s[i+1..]);
    assert ([s[i]] + s[i+1..])[1..] == s[i+1..];
  }

  /** Replacing one zombie changes the total by the difference in hp. */
  lemma HpSumUpdate(s: seq<Zombie>, i: nat, z: Zombie)
    requires i < |s|
    ensures HpSum(s[i := z]) == HpSum(s) - s[i].hp + z.hp
  {
    var u := s[i := z];
    HpSumAt(s, i);
    HpSumAt(u, i);
    assert u[..i] == s[..i] && u[i+1..] == s[i+1..];
  }

  /** Splicing one zombie out takes its hp off the total. */
  lemma HpSumSplice(s: seq<Zombie>, i: nat)
    requires i < |s|
    ensures HpSum(Splice(s, i)) == HpSum(s) - s[i].hp
  {
    HpSumAt(s, i);
    HpSumAppend(s[..i], s[i+1..]);
  }

  /** A zombie whose hp drops to zero, spliced out, leaves only live ones. */
  lemma AliveAfterKill(s: seq<Zombie>, i: nat, z: Zombie)
    requires i < |s| && AllAlive(s)
    ensures AllAlive(Splice(s[i := z], i))
  {
  }

  /** A zombie that keeps a hit point keeps the field alive. */
  lemma AliveAfterWound(s: seq<Zombie>, i: nat, z: Zombie)
    requires i < |s| && AllAlive(s) && z.hp >= 1
    ensures AllAlive(s[i := z])
  {
  }

  // ---------------------------------------------------------------------
  // Bullet versus zombie (game.js:193-215)
  // ---------------------------------------------------------------------

  /** One hit by bullet index `bi` on zombie index `zi` (game.js:201-212):
      the zombie loses a hit point, the bullet now at `bi` (if any) is
      spliced out, and a zombie left with no hit points is spliced out and
      pays one coin; the coin that makes exactly 100 at gun level 1 sets the
      gun level to 2. */
  function Hit(st: Battle, bi: nat, zi: nat): (r: Battle)
    requires zi < |st.zombies|
    ensures |r.bullets| <= |st.bullets| && |r.zombies| <= |st.zombies|
  {
    var z := st.zombies[zi].(hp := st.zombies[zi].hp - 1);
    var bullets := Splice(st.bullets, bi);
    if z.hp <= 0 then
      var coins := st.coins + 1;
      Battle(bullets, Splice(st.zombies[zi := z], zi), coins,
             if coins == 100 && st.gunLevel == 1 then 2 else st.gunLevel)
    else
      Battle(bullets, st.zombies[zi := z], st.coins, st.gunLevel)
  }

  /** The inner `zombies.forEach` for the captured bullet `b` taken from
      index `bi`, resumed at zombie index `zi`. */
  function ZombieSweep(b: Bullet, bi: nat, zi: nat, st: Battle): (r: Battle)
    ensures |r.bullets| <= |st.bullets| && |r.zombies| <= |st.zombies|
    decreases |st.zombies| - zi
  {
    if zi >= |st.zombies| then st
    else if Overlap(b.Bounds(), st.zombies[zi].Bounds()) then ZombieSweep(b, bi, zi + 1, Hit(st, bi, zi))
    else ZombieSweep(b, bi, zi + 1, st)
  }

  /** The outer `bullets.forEach`, resumed at bullet index `bi`. */
  function BulletSweep(bi: nat, st: Battle): (r: Battle)
    ensures |r.bullets| <= |st.bullets| && |r.zombies| <= |st.zombies|
    decreases |st.bullets| - bi
  {
    if bi >= |st.bullets| then st
    else BulletSweep(bi + 1, ZombieSweep(st.bullets[bi], bi, 0, st))
  }

  /** `z` is one of the zombies of `zs` where it was, except that it may
      have lost hit points. */
  ghost predicate WornFrom(z: Zombie, zs: seq<Zombie>)
  {
    exists w :: w in zs && z == w.(hp := z.hp) && z.hp <= w.hp
  }

  /** The bookkeeping the bullet loop keeps from `st` to `r`: zombies stay
      alive; every zombie left is an old one that has at most lost hit
      points; every zombie that disappears paid exactly one coin; no more
      bullets disappear than hit points were dealt; bullets are only removed;
      and the gun level moves to 2 exactly when it was 1 and the coins passed
      100 during the loop. */
  ghost predicate Accounts(st: Battle, r: Battle)
  {
    AllAlive(r.zombies) &&
    (forall z :: z in r.zombies ==> WornFrom(z, st.zombies)) &&
    |r.zombies| <= |st.zombies| &&
    |r.bullets| <= |st.bullets| &&
    r.coins == st.coins + (|st.zombies| - |r.zombies|) &&
    |st.bullets| - |r.bullets| <= HpSum(st.zombies) - HpSum(r.zombies) &&
    multiset(r.bullets) <= multiset(st.bullets) &&
    r.gunLevel == (if st.gunLevel == 1 && st.coins < 100 <= r.coins then 2 else st.gunLevel)
  }

  lemma AccountsTrans(a: Battle, b: Battle, c: Battle)
    requires Accounts(a, b) && Accounts(b, c)
    ensures Accounts(a, c)
  {
  }

  /** After one zombie of `s` loses a hit point, every zombie is worn from
      `s`. */
  lemma WornAfterHit(s: seq<Zombie>, zi: nat)
    requires zi < |s|
    ensures forall x :: x in s[zi := s[zi].(hp := s[zi].hp - 1)] ==> WornFrom(x, s)
  {
  }

  /** A single hit takes one hit point off the zombie at `zi` and touches no
      other zombie; it removes that zombie, paying a coin, exactly when its
      last hit point was taken; and it removes at most one bullet. */
  lemma HitAccounts(st: Battle, bi: nat, zi: nat)
    requires zi < |st.zombies| && AllAlive(st.zombies)
    ensures Accounts(st, Hit(st, bi, zi))
    ensures HpSum(Hit(st, bi, zi).zombies) == HpSum(st.zombies) - 1
    ensures |Hit(st, bi, zi).zombies| < |st.zombies| <==> st.zombies[zi].hp == 1
    ensures multiset(Hit(st, bi, zi).zombies) <=
            multiset(st.zombies[zi := st.zombies[zi].(hp := st.zombies[zi].hp - 1)])
  {
    var s := st.zombies;
    var z := s[zi].(hp := s[zi].hp - 1);
    var u := s[zi := z];
    var r := Hit(st, bi, zi);
    assert s[zi] in s;
    assert r.bullets == Splice(st.bullets, bi);
    SpliceMultiset(st.bullets, bi);
    HpSumUpdate(s, zi, z);
    WornAfterHit(s, zi);
    if z.hp <= 0 {
      assert r.zombies == Splice(u, zi);
      HpSumSplice(u, zi);
      AliveAfterKill(s, zi, z);
      SpliceMultiset(u, zi);
      forall x | x in r.zombies ensures WornFrom(x, s) {
        assert x in multiset(r.zombies);
        assert x in u;
      }
    } else {
      assert r.zombies == u;
      AliveAfterWound(s, zi, z);
    }
  }

  lemma {:induction false} ZombieSweepAccounts(b: Bullet, bi: nat, zi: nat, st: Battle)
    requires AllAlive(st.zombies)
    ensures Accounts(st, ZombieSweep(b, bi, zi, st))
    decreases |st.zombies| - zi
  {
    if zi < |st.zombies| {
      if Overlap(b.Bounds(), st.zombies[zi].Bounds()) {
        var next := Hit(st, bi, zi);
        HitAccounts(st, bi, zi);
        ZombieSweepAccounts(b, bi, zi + 1, next);
        AccountsTrans(st, next, ZombieSweep(b, bi, zi + 1, next));
      } else {
        ZombieSweepAccounts(b, bi, zi + 1, st);
      }
    }
  }

  /** The whole bullet loop keeps the bookkeeping of `Accounts`: in
      particular coins rise by exactly one per zombie removed, never fall,
      and each removed bullet is paid for by a hit point of damage. */
  lemma {:induction false} BulletSweepAccounts(bi: nat, st: Battle)
    requires AllAlive(st.zombies)
    ensures Accounts(st, BulletSweep(bi, st))
    decreases |st.bullets| - bi
  {
    if bi < |st.bullets| {
      var next := ZombieSweep(st.bullets[bi], bi, 0, st);
      ZombieSweepAccounts(st.bullets[bi], bi, 0, st);
      BulletSweepAccounts(bi + 1, next);
      AccountsTrans(st, next, BulletSweep(bi + 1, next));
    }
  }

  /** The two facts of `Accounts` the damage lemmas need: zombies stay alive
      and hit points are never restored. */
  lemma ZombieSweepNoHeal(b: Bullet, bi: nat, zi: nat, st: Battle)
    requires AllAlive(st.zombies)
    ensures AllAlive(ZombieSweep(b, bi, zi, st).zombies)
    ensures HpSum(ZombieSweep(b, bi, zi, st).zombies) <= HpSum(st.zombies)
  {
    ZombieSweepAccounts(b, bi, zi, st);
  }

  lemma BulletSweepNoHeal(bi: nat, st: Battle)
    requires AllAlive(st.zombies)
    ensures HpSum(BulletSweep(bi, st).zombies) <= HpSum(st.zombies)
  {
    BulletSweepAccounts(bi, st);
  }

  /** A bullet that overlaps none of the zombies from `zi` on changes nothing. */
  lemma {:induction false} ZombieSweepIdle(b: Bullet, bi: nat, zi: nat, st: Battle)
    requires forall j :: zi <= j < |st.zombies| ==> !Overlap(b.Bounds(), st.zombies[j].Bounds())
    ensures ZombieSweep(b, bi, zi, st) == st
    decreases |st.zombies| - zi
  {
    if zi < |st.zombies| {
      ZombieSweepIdle(b, bi, zi + 1, st);
    }
  }

  /** The captured bullet deals damage exactly when it overlaps some zombie
      at or after `zi`. */
  lemma {:induction false} ZombieSweepHitIff(b: Bullet, bi: nat, zi: nat, st: Battle)
    requires AllAlive(st.zombies)
    ensures HpSum(ZombieSweep(b, bi, zi, st).zombies) < HpSum(st.zombies) <==>
            exists j :: zi <= j < |st.zombies| && Overlap(b.Bounds(), st.zombies[j].Bounds())
    decreases |st.zombies| - zi
  {
    if zi < |st.zombies| {
      if Overlap(b.Bounds(), st.zombies[zi].Bounds()) {
        var next := Hit(st, bi, zi);
        HitAccounts(st, bi, zi);
        ZombieSweepNoHeal(b, bi, zi + 1, next);
      } else {
        ZombieSweepHitIff(b, bi, zi + 1, st);
        if exists j :: zi <= j < |st.zombies| && Overlap(b.Bounds(), st.zombies[j].Bounds()) {
          var j :| zi <= j < |st.zombies| && Overlap(b.Bounds(), st.zombies[j].Bounds());
          assert j != zi;
        }
      }
    }
  }

  /** With no overlapping bullet and zombie, `checkCollisions`'s first loop
      changes nothing. */
  lemma {:induction false} BulletSweepIdle(bi: nat, st: Battle)
    requires forall b, z :: b in st.bullets && z in st.zombies ==> !Overlap(b.Bounds(), z.Bounds())
    ensures BulletSweep(bi, st) == st
    decreases |st.bullets| - bi
  {
    if bi < |st.bullets| {
      var b := st.bullets[bi];
      forall j | 0 <= j < |st.zombies| ensures !Overlap(b.Bounds(), st.zombies[j].Bounds()) {
        assert st.zombies[j] in st.zombies;
      }
      ZombieSweepIdle(b, bi, 0, st);
      BulletSweepIdle(bi + 1, st);
    }
  }

  /** Damage is dealt exactly when some bullet at or after `bi` overlaps some
      zombie: the first such bullet is reached with nothing changed yet, and
      damage is never undone. */
  lemma {:induction false} BulletSweepHitIff(bi: nat, st: Battle)
    requires AllAlive(st.zombies)
    ensures HpSum(BulletSweep(bi, st).zombies) < HpSum(st.zombies) <==>
            exists i, j :: bi <= i < |st.bullets| && 0 <= j < |st.zombies| &&
                           Overlap(st.bullets[i].Bounds(), st.zombies[j].Bounds())
    decreases |st.bullets| - bi
  {
    if bi < |st.bullets| {
      var b := st.bullets[bi];
      var next := ZombieSweep(b, bi, 0, st);
      ZombieSweepNoHeal(b, bi, 0, st);
      ZombieSweepHitIff(b, bi, 0, st);
      BulletSweepNoHeal(bi + 1, next);
      if exists j :: 0 <= j < |st.zombies| && Overlap(b.Bounds(), st.zombies[j].Bounds()) {
        var j :| 0 <= j < |st.zombies| && Overlap(b.Bounds(), st.zombies[j].Bounds());
        assert Overlap(st.bullets[bi].Bounds(), st.zombies[j].Bounds());
      } else {
        ZombieSweepIdle(b, bi, 0, st);
        BulletSweepHitIff(bi + 1, st);
        if exists i, j :: bi <= i < |st.bullets| && 0 <= j < |st.zombies| &&
                          Overlap(st.bullets[i].Bounds(), st.zombies[j].Bounds()) {
          var i, j :| bi <= i < |st.bullets| && 0 <= j < |st.zombies| &&
                      Overlap(st.bullets[i].Bounds(), st.zombies[j].Bounds());
          assert i != bi;
        }
      }
    }
  }

  /** Removal skips the next element: a bullet that kills the first of two
      zombies it overlaps never tests the second, which slid into the index
      just visited. */
  lemma SkipAfterKillExample()
    ensures var b := Bullet(100, 100, 12, 6, 10);
            var z0 := Zombie(90, 50, 70, 75, 1, 1, false);
            var z1 := Zombie(95, 50, 70, 75, 1, 1, false);
            BulletSweep(0, Battle([b], [z0, z1], 0, 1)) == Battle([], [z1], 1, 1)
  {
    var b := Bullet(100, 100, 12, 6, 10);
    var z0 := Zombie(90, 50, 70, 75, 1, 1, false);
    var z1 := Zombie(95, 50, 70, 75, 1, 1, false);
    var st := Battle([b], [z0, z1], 0, 1);
    var after := Battle([], [z1], 1, 1);
    assert Hit(st, 0, 0) == after;
    assert ZombieSweep(b, 0, 0, st) == after;
  }

  /** The captured bullet keeps hitting after it was spliced out, and each
      further hit splices the bullet that moved into its index: here a bullet
      that touches no zombie is removed. */
  lemma StaleSpliceExample()
    ensures var b0 := Bullet(100, 100, 12, 6, 10);
            var b1 := Bullet(0, 400, 12, 6, 10);
            var z0 := Zombie(90, 50, 70, 100, 1, 2, true);
            var z1 := Zombie(95, 50, 70, 100, 1, 2, true);
            !Overlap(b1.Bounds(), z0.Bounds()) && !Overlap(b1.Bounds(), z1.Bounds()) &&
            BulletSweep(0, Battle([b0, b1], [z0, z1], 0, 1)) ==
            Battle([], [z0.(hp := 1), z1.(hp := 1)], 0, 1)
  {
    var b0 := Bullet(100, 100, 12, 6, 10);
    var b1 := Bullet(0, 400, 12, 6, 10);
    var z0 := Zombie(90, 50, 70, 100, 1, 2, true);
    var z1 := Zombie(95, 50, 70, 100, 1, 2, true);
    var st := Battle([b0, b1], [z0, z1], 0, 1);
    var mid := Battle([b1], [z0.(hp := 1), z1], 0, 1);
    var after := Battle([], [z0.(hp := 1), z1.(hp := 1)], 0, 1);
    assert Hit(st, 0, 0) == mid;
    assert Hit(mid, 0, 1) == after;
    assert ZombieSweep(b0, 0, 1, mid) == after;
    assert ZombieSweep(b0, 0, 0, st) == after;
  }

  // ---------------------------------------------------------------------
  // Zombie versus player (game.js:217-229)
  // ---------------------------------------------------------------------

  /** The zombie-versus-player `forEach`, resumed at index `zi`: a zombie
      overlapping the player is spliced out, the player takes a wound and the
      hit flash is set to 8 frames. */
  function ContactSweep(player: Box, zi: nat, st: Contact): (r: Contact)
    ensures |r.zombies| <= |st.zombies|
    decreases |st.zombies| - zi
  {
    if zi >= |st.zombies| then st
    else if Overlap(player, st.zombies[zi].Bounds()) then
      ContactSweep(player, zi + 1, Contact(Splice(st.zombies, zi), Wound(st.hp), HitFlashFrames))
    else
      ContactSweep(player, zi + 1, st)
  }

  /** What the contact loop guarantees from `st` to `r`: one wound per
      zombie removed, the flash set to 8 exactly when something was removed,
      zombies only removed, and only zombies that overlap the player. */
  ghost predicate Bruised(player: Box, st: Contact, r: Contact)
  {
    |r.zombies| <= |st.zombies| &&
    r.hp == Wounded(st.hp, |st.zombies| - |r.zombies|) &&
    r.flash == (if |r.zombies| < |st.zombies| then HitFlashFrames else st.flash) &&
    multiset(r.zombies) <= multiset(st.zombies) &&
    forall z: Zombie :: !Overlap(player, z.Bounds()) ==> multiset(r.zombies)[z] == multiset(st.zombies)[z]
  }

  /** Splicing out index `i` leaves the count of every other value alone. */
  lemma SpliceKeepsOthers(s: seq<Zombie>, i: nat, z: Zombie)
    requires i < |s| && z != s[i]
    ensures multiset(Splice(s, i))[z] == multiset(s)[z]
  {
    SpliceMultiset(s, i);
  }

  /** One contact followed by a run that keeps `Bruised` keeps it too. */
  lemma BruisedStep(player: Box, zi: nat, st: Contact, r: Contact)
    requires zi < |st.zombies| && Overlap(player, st.zombies[zi].Bounds())
    requires Bruised(player, Contact(Splice(st.zombies, zi), Wound(st.hp), HitFlashFrames), r)
    ensures Bruised(player, st, r)
  {
    var next := Contact(Splice(st.zombies, zi), Wound(st.hp), HitFlashFrames);
    var k := |st.zombies| - |r.zombies|;
    SpliceMultiset(st.zombies, zi);
    assert k >= 1 && r.hp == Wounded(Wound(st.hp), k - 1);
    forall z: Zombie | !Overlap(player, z.Bounds())
      ensures multiset(r.zombies)[z] == multiset(st.zombies)[z]
    {
      SpliceKeepsOthers(st.zombies, zi, z);
    }
  }

  lemma {:induction false} ContactSweepBruises(player: Box, zi: nat, st: Contact)
    ensures Bruised(player, st, ContactSweep(player, zi, st))
    decreases |st.zombies| - zi
  {
    if zi < |st.zombies| {
      if Overlap(player, st.zombies[zi].Bounds()) {
        var next := Contact(Splice(st.zombies, zi), Wound(st.hp), HitFlashFrames);
        ContactSweepBruises(player, zi + 1, next);
        BruisedStep(player, zi, st, ContactSweep(player, zi + 1, next));
      } else {
        ContactSweepBruises(player, zi + 1, st);
      }
    }
  }

  /** The player is hurt by contact exactly when some zombie at or after
      `zi` overlaps the player. */
  lemma {:induction false} ContactSweepIff(player: Box, zi: nat, st: Contact)
    ensures |ContactSweep(player, zi, st).zombies| < |st.zombies| <==>
            exists j :: zi <= j < |st.zombies| && Overlap(player, st.zombies[j].Bounds())
    decreases |st.zombies| - zi
  {
    if zi < |st.zombies| {
      if !Overlap(player, st.zombies[zi].Bounds()) {
        ContactSweepIff(player, zi + 1, st);
        if exists j :: zi <= j < |st.zombies| && Overlap(player, st.zombies[j].Bounds()) {
          var j :| zi <= j < |st.zombies| && Overlap(player, st.zombies[j].Bounds());
          assert j != zi;
        }
      }
    }
  }
}
