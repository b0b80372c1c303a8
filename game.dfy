/** The systems of src/main.rs that tie the two sides together: player lasers
    hitting enemies, enemy lasers hitting the player, and the explosions those
    hits leave behind. The engine's bounding-box test is an uninterpreted
    relation over the entities' positions in their queries. */
module Game {
  import opened Common
  import opened Enemy
  import opened Player

  /** The explosion sprite sheet is a 4 by 4 grid. */
  const AtlasColumns: nat := 4
  const AtlasRows: nat := 4

  /** The number of textures in the explosion atlas. */
  const AtlasFrames: nat := AtlasColumns * AtlasRows

  /** Some player laser among the first `laserCount` collides with enemy `j`. */
  ghost predicate EnemyHitBy(laserCount: nat, collide: (nat, nat) -> bool, j: nat)
  {
    exists i: nat :: i < laserCount && collide(i, j)
  }

  /** Player laser `i` collides with some enemy among the first `enemyCount`. */
  ghost predicate LaserHitsSome(enemyCount: nat, collide: (nat, nat) -> bool, i: nat)
  {
    exists j: nat :: j < enemyCount && collide(i, j)
  }

  /** The enemies (by index) that some player laser (by index) collides with. */
  ghost function HitEnemies(laserCount: nat, enemyCount: nat, collide: (nat, nat) -> bool): set<nat>
  {
    set j: nat | j < enemyCount && EnemyHitBy(laserCount, collide, j)
  }

  /** The player lasers (by index) that collide with some enemy (by index). */
  ghost function HittingLasers(laserCount: nat, enemyCount: nat, collide: (nat, nat) -> bool): set<nat>
  {
    set i: nat | i < laserCount && LaserHitsSome(enemyCount, collide, i)
  }

  /** Whether enemy `k` is newly hit by laser `i`: they collide and `k` is not
      among the enemies `seen` blasted before. */
  function NewlyHitBy(i: nat, seen: set<nat>, collide: (nat, nat) -> bool): nat -> bool
  {
    (k: nat) => collide(i, k) && k !in seen
  }

  /** The enemies below `n` that laser `i` blasts when the enemies in `seen`
      were blasted before it, in the order the inner loop meets them. */
  function LaserBlasts(i: nat, n: nat, seen: set<nat>, collide: (nat, nat) -> bool): seq<nat>
    decreases n
  {
    if n == 0 then []
    else LaserBlasts(i, n - 1, seen, collide) + (if collide(i, n - 1) && n - 1 !in seen then [n - 1] else [])
  }

  /** Laser `i` blasts exactly the enemies it newly hits, in increasing order. */
  lemma {:induction false} LaserBlastsInOrder(i: nat, n: nat, seen: set<nat>, collide: (nat, nat) -> bool)
    ensures LaserBlasts(i, n, seen, collide) == Where(n, NewlyHitBy(i, seen, collide))
    decreases n
  {
    if n > 0 {
      LaserBlastsInOrder(i, n - 1, seen, collide);
    }
  }

  /** `enemiesBlasted` is `seen` together with the enemies below `j` that
      laser `i` hits. */
  ghost predicate BlastedBelow(i: nat, j: nat, collide: (nat, nat) -> bool, seen: set<nat>, enemiesBlasted: set<nat>)
  {
    forall x: nat :: x in enemiesBlasted <==> x in seen || (x < j && collide(i, x))
  }

  /** One more enemy in the inner loop adds `j` to the set exactly when laser
      `i` hits it. */
  lemma BlastedBelowNext(i: nat, j: nat, collide: (nat, nat) -> bool, seen: set<nat>,
                         before: set<nat>, after: set<nat>)
    requires BlastedBelow(i, j, collide, seen, before)
    requires collide(i, j) && j !in before ==> after == before + {j}
    requires !(collide(i, j) && j !in before) ==> after == before
    ensures BlastedBelow(i, j + 1, collide, seen, after)
  {
  }

  /** One more enemy in the inner loop extends what laser `i` blasts by `j`
      exactly when the loop blasts `j`. */
  lemma LaserBlastsNext(i: nat, j: nat, collide: (nat, nat) -> bool, seen: set<nat>, enemiesBlasted: set<nat>,
                        base: seq<nat>, before: seq<nat>, after: seq<nat>)
    requires BlastedBelow(i, j, collide, seen, enemiesBlasted)
    requires before == base + LaserBlasts(i, j, seen, collide)
    requires collide(i, j) && j !in enemiesBlasted ==> after == before + [j]
    requires !(collide(i, j) && j !in enemiesBlasted) ==> after == before
    ensures after == base + LaserBlasts(i, j + 1, seen, collide)
  {
    assert j in enemiesBlasted <==> j in seen;
  }

  /** The order in which the player-laser pass blasts enemies among the first
      `enemyCount`, from laser `i` on: laser by laser, and for each laser the
      enemies it hits that no earlier laser hit, in increasing order. */
  ghost function BlastOrder(i: nat, laserCount: nat, enemyCount: nat, collide: (nat, nat) -> bool): seq<nat>
    decreases laserCount - i
  {
    if i >= laserCount then []
    else LaserBlasts(i, enemyCount, HitEnemies(i, enemyCount, collide), collide) + BlastOrder(i + 1, laserCount, enemyCount, collide)
  }

  /** One more laser moves its blasts from the rest of the pass's order onto what was blasted so far. */
  lemma BlastOrderNext(i: nat, laserCount: nat, enemyCount: nat, collide: (nat, nat) -> bool,
                       before: seq<nat>, seen: set<nat>, after: seq<nat>)
    requires i < laserCount
    requires seen == HitEnemies(i, enemyCount, collide)
    requires after == before + LaserBlasts(i, enemyCount, seen, collide)
    ensures after + BlastOrder(i + 1, laserCount, enemyCount, collide)
      == before + BlastOrder(i, laserCount, enemyCount, collide)
  {
  }

  /** Enemies are blasted in first-hit order, not in enemy order: when laser 0
      hits only enemy 1 and laser 1 hits only enemy 0, enemy 1 goes first. */
  lemma CrossedHitsOrder(collide: (nat, nat) -> bool)
    requires forall i: nat, j: nat :: collide(i, j) <==> (i == 0 && j == 1) || (i == 1 && j == 0)
    ensures BlastOrder(0, 2, 2, collide) == [1, 0]
  {
    assert HitByLaser(0, 2, collide) == {1};
    assert LaserBlasts(0, 2, {}, collide) == [1];
    assert LaserBlasts(1, 2, {1}, collide) == [0];
  }

  /** The bookkeeping of a hit pass agrees with itself: the despawn list holds
      each member of the `enemies_blasted` set exactly once, and the k-th
      explosion marker sits at the k-th blasted enemy. */
  ghost predicate BlastLog(blasted: seq<nat>, enemiesBlasted: set<nat>, explosions: seq<Vec2>, enemies: seq<Enemy>)
  {
    && (forall j: nat :: j in blasted <==> j in enemiesBlasted)
    && |blasted| == |enemiesBlasted|
    && (forall a, b :: 0 <= a < b < |blasted| ==> blasted[a] != blasted[b])
    && |explosions| == |blasted|
    && (forall k :: 0 <= k < |blasted| ==> blasted[k] < |enemies| && explosions[k] == enemies[blasted[k]].pos)
  }

  /** Blasting enemy `j`, not blasted yet: despawn it, count it down, queue
      an explosion at its position and remember it in `enemies_blasted`. */
  method BlastEnemy(j: nat, enemies: seq<Enemy>, blasted0: seq<nat>, enemiesBlasted0: set<nat>, explosions0: seq<Vec2>, active0: U32)
    returns (blasted: seq<nat>, enemiesBlasted: set<nat>, explosions: seq<Vec2>, active': U32)
    requires BlastLog(blasted0, enemiesBlasted0, explosions0, enemies)
    requires j < |enemies| && j !in enemiesBlasted0 && 1 <= active0
    ensures blasted == blasted0 + [j] && enemiesBlasted == enemiesBlasted0 + {j}
    ensures explosions == explosions0 + [enemies[j].pos] && active' == active0 - 1
    ensures BlastLog(blasted, enemiesBlasted, explosions, enemies)
  {
    active' := active0 - 1;
    explosions := explosions0 + [enemies[j].pos];
    blasted := blasted0 + [j];
    enemiesBlasted := enemiesBlasted0 + {j};
  }

  /** Taking one more laser into account adds the enemies it collides with. */
  lemma HitEnemiesNextLaser(i: nat, enemyCount: nat, collide: (nat, nat) -> bool)
    ensures HitEnemies(i + 1, enemyCount, collide)
      == HitEnemies(i, enemyCount, collide) + (set j: nat | j < enemyCount && collide(i, j))
  {
    forall j: nat | j < enemyCount && EnemyHitBy(i + 1, collide, j)
      ensures EnemyHitBy(i, collide, j) || collide(i, j)
    {
      var i': nat :| i' < i + 1 && collide(i', j);
    }
  }

  /** More lasers hit at least the same enemies. */
  lemma HitEnemiesGrow(i: nat, n: nat, enemyCount: nat, collide: (nat, nat) -> bool)
    requires i <= n
    ensures HitEnemies(i, enemyCount, collide) <= HitEnemies(n, enemyCount, collide)
  {
  }

  /** Taking one more laser into account adds it exactly when it hits some enemy. */
  lemma HittingLasersNextLaser(i: nat, enemyCount: nat, collide: (nat, nat) -> bool)
    ensures HittingLasers(i + 1, enemyCount, collide)
      == HittingLasers(i, enemyCount, collide) + (if LaserHitsSome(enemyCount, collide, i) then {i} else {})
  {
  }

  /** Taking one more enemy into account for laser `i`. */
  lemma LaserHitsSomeNextEnemy(j: nat, collide: (nat, nat) -> bool, i: nat)
    ensures LaserHitsSome(j + 1, collide, i) <==> LaserHitsSome(j, collide, i) || collide(i, j)
  {
    if LaserHitsSome(j + 1, collide, i) && !collide(i, j) {
      var j': nat :| j' < j + 1 && collide(i, j');
      assert j' < j;
    }
  }

  /** The enemies laser `i` collides with. */
  ghost function HitByLaser(i: nat, enemyCount: nat, collide: (nat, nat) -> bool): set<nat>
  {
    set j: nat | j < enemyCount && collide(i, j)
  }

  /** After the inner loop, the set holds the enemies blasted before and those laser `i` hits. */
  lemma BlastedByLaser(enemiesBlasted0: set<nat>, enemiesBlasted: set<nat>, i: nat, n: nat, collide: (nat, nat) -> bool)
    requires BlastedBelow(i, n, collide, enemiesBlasted0, enemiesBlasted)
    ensures enemiesBlasted == enemiesBlasted0 + HitByLaser(i, n, collide)
  {
  }

  /** Within the inner loop, an enemy hit and not yet blasted still fits in
      the set of all enemies the pass hits, so the counter, which covers the
      enemies of that set not blasted yet, is still positive. */
  lemma RoomToBlast(enemiesBlasted0: set<nat>, enemiesBlasted: set<nat>, bound: set<nat>,
                    i: nat, j: nat, n: nat, collide: (nat, nat) -> bool, active: int)
    requires BlastedBelow(i, j, collide, enemiesBlasted0, enemiesBlasted)
    requires enemiesBlasted0 + HitByLaser(i, n, collide) <= bound
    requires j < n && collide(i, j) && j !in enemiesBlasted
    requires |bound| - |enemiesBlasted| <= active
    ensures 1 <= active
  {
    assert enemiesBlasted + {j} <= bound;
    SubsetCard(enemiesBlasted + {j}, bound);
  }

  /** The state of the inner loop of `player_laser_hit_enemy` for laser `i`
      after the first `j` enemies, relative to the state before the laser
      (`blasted0`, `enemiesBlasted0`, `explosions0`, `active0`): the set
      gained the enemies below `j` the laser hits, the despawn list and the
      explosion markers agree with it, the list grew by what the laser blasted
      in order, the counter is down by one per blasted enemy and still covers
      the enemies of `bound` not blasted yet, and `hit` tells whether the
      laser hit any of them. */
  ghost predicate LaserSoFar(i: nat, j: nat, enemies: seq<Enemy>, collide: (nat, nat) -> bool, bound: set<nat>,
                             blasted0: seq<nat>, enemiesBlasted0: set<nat>, explosions0: seq<Vec2>, active0: int,
                             blasted: seq<nat>, enemiesBlasted: set<nat>, explosions: seq<Vec2>, active': int, hit: bool)
  {
    && j <= |enemies|
    && enemiesBlasted0 + HitByLaser(i, |enemies|, collide) <= bound
    && BlastedBelow(i, j, collide, enemiesBlasted0, enemiesBlasted)
    && BlastLog(blasted, enemiesBlasted, explosions, enemies)
    && active0 - active' == |blasted| - |blasted0|
    && |bound| - |enemiesBlasted| <= active'
    && hit == LaserHitsSome(j, collide, i)
    && blasted == blasted0 + LaserBlasts(i, j, enemiesBlasted0, collide)
    && explosions0 <= explosions
  }

  /** An enemy the laser misses, or has already blasted, keeps `LaserSoFar`
      with nothing changed but `hit`. */
  lemma LaserSoFarSkip(i: nat, j: nat, enemies: seq<Enemy>, collide: (nat, nat) -> bool, bound: set<nat>,
                       blastedStart: seq<nat>, enemiesBlastedStart: set<nat>, explosionsStart: seq<Vec2>, activeStart: int,
                       blasted: seq<nat>, enemiesBlasted: set<nat>, explosions: seq<Vec2>, active': int, hit0: bool)
    requires j < |enemies| && !(collide(i, j) && j !in enemiesBlasted)
    requires LaserSoFar(i, j, enemies, collide, bound, blastedStart, enemiesBlastedStart, explosionsStart, activeStart,
                        blasted, enemiesBlasted, explosions, active', hit0)
    ensures LaserSoFar(i, j + 1, enemies, collide, bound, blastedStart, enemiesBlastedStart, explosionsStart, activeStart,
                       blasted, enemiesBlasted, explosions, active', hit0 || collide(i, j))
  {
    LaserHitsSomeNextEnemy(j, collide, i);
    LaserBlastsNext(i, j, collide, enemiesBlastedStart, enemiesBlasted, blastedStart, blasted, blasted);
    BlastedBelowNext(i, j, collide, enemiesBlastedStart, enemiesBlasted, enemiesBlasted);
  }

  /** An enemy the laser hits first keeps `LaserSoFar` once it is appended to
      the despawn list, the set and the explosions, and counted down. */
  lemma LaserSoFarBlast(i: nat, j: nat, enemies: seq<Enemy>, collide: (nat, nat) -> bool, bound: set<nat>,
                        blastedStart: seq<nat>, enemiesBlastedStart: set<nat>, explosionsStart: seq<Vec2>, activeStart: int,
                        blasted0: seq<nat>, enemiesBlasted0: set<nat>, explosions0: seq<Vec2>, active0: int, hit0: bool,
                        blasted: seq<nat>, enemiesBlasted: set<nat>, explosions: seq<Vec2>, active': int)
    requires j < |enemies| && collide(i, j) && j !in enemiesBlasted0
    requires LaserSoFar(i, j, enemies, collide, bound, blastedStart, enemiesBlastedStart, explosionsStart, activeStart,
                        blasted0, enemiesBlasted0, explosions0, active0, hit0)
    requires BlastLog(blasted, enemiesBlasted, explosions, enemies)
    requires blasted == blasted0 + [j] && enemiesBlasted == enemiesBlasted0 + {j}
    requires explosions == explosions0 + [enemies[j].pos] && active' == active0 - 1
    ensures LaserSoFar(i, j + 1, enemies, collide, bound, blastedStart, enemiesBlastedStart, explosionsStart, activeStart,
                       blasted, enemiesBlasted, explosions, active', true)
  {
    LaserHitsSomeNextEnemy(j, collide, i);
    LaserBlastsNext(i, j, collide, enemiesBlastedStart, enemiesBlasted0, blastedStart, blasted0, blasted);
    BlastedBelowNext(i, j, collide, enemiesBlastedStart, enemiesBlasted0, enemiesBlasted);
  }

  /** The body of the inner loop of `player_laser_hit_enemy` for laser `i`
      and enemy `j`: on a collision with an enemy not yet in
      `enemies_blasted` the enemy is blasted, and any collision despawns the
      laser (`hit`). */
  method LaserMeetsEnemy(i: nat, j: nat, enemies: seq<Enemy>, collide: (nat, nat) -> bool, ghost bound: set<nat>,
                         ghost blastedStart: seq<nat>, ghost enemiesBlastedStart: set<nat>, ghost explosionsStart: seq<Vec2>, ghost activeStart: int,
                         blasted0: seq<nat>, enemiesBlasted0: set<nat>, explosions0: seq<Vec2>, active0: U32, hit0: bool)
    returns (blasted: seq<nat>, enemiesBlasted: set<nat>, explosions: seq<Vec2>, active': U32, hit: bool)
    requires j < |enemies|
    requires LaserSoFar(i, j, enemies, collide, bound, blastedStart, enemiesBlastedStart, explosionsStart, activeStart,
                        blasted0, enemiesBlasted0, explosions0, active0, hit0)
    ensures LaserSoFar(i, j + 1, enemies, collide, bound, blastedStart, enemiesBlastedStart, explosionsStart, activeStart,
                       blasted, enemiesBlasted, explosions, active', hit)
    ensures collide(i, j) && j !in enemiesBlasted0 ==>
      blasted == blasted0 + [j] && enemiesBlasted == enemiesBlasted0 + {j}
      && explosions == explosions0 + [enemies[j].pos] && active' == active0 - 1
    ensures !(collide(i, j) && j !in enemiesBlasted0) ==>
      blasted == blasted0 && enemiesBlasted == enemiesBlasted0 && explosions == explosions0 && active' == active0
    ensures hit == (hit0 || collide(i, j))
  {
    blasted, enemiesBlasted, explosions, active', hit := blasted0, enemiesBlasted0, explosions0, active0, hit0;
    if collide(i, j) {
      if j !in enemiesBlasted {
        RoomToBlast(enemiesBlastedStart, enemiesBlasted, bound, i, j, |enemies|, collide, active');
        blasted, enemiesBlasted, explosions, active' := BlastEnemy(j, enemies, blasted, enemiesBlasted, explosions, active');
        LaserSoFarBlast(i, j, enemies, collide, bound, blastedStart, enemiesBlastedStart, explosionsStart, activeStart,
                        blasted0, enemiesBlasted0, explosions0, active0, hit0, blasted, enemiesBlasted, explosions, active');
      } else {
        LaserSoFarSkip(i, j, enemies, collide, bound, blastedStart, enemiesBlastedStart, explosionsStart, activeStart,
                       blasted, enemiesBlasted, explosions, active', hit0);
      }
      hit := true;
    } else {
      LaserSoFarSkip(i, j, enemies, collide, bound, blastedStart, enemiesBlastedStart, explosionsStart, activeStart,
                     blasted, enemiesBlasted, explosions, active', hit0);
    }
  }

  /** The inner loop of `player_laser_hit_enemy`: laser `i` against every
      enemy. Each enemy it hits that is not in `enemies_blasted` yet is
      despawned, counted down and exploded, and joins the set. `hit` tells
      whether the laser hits anything, which despawns it. `bound` is the set
      of all enemies the pass will hit, and the counter covers those of them
      not blasted yet. */
  method BlastWithLaser(i: nat, enemies: seq<Enemy>, collide: (nat, nat) -> bool, ghost bound: set<nat>,
                        blasted0: seq<nat>, enemiesBlasted0: set<nat>, explosions0: seq<Vec2>, active0: U32)
    returns (blasted: seq<nat>, enemiesBlasted: set<nat>, explosions: seq<Vec2>, active': U32, hit: bool)
    requires BlastLog(blasted0, enemiesBlasted0, explosions0, enemies)
    requires enemiesBlasted0 + HitByLaser(i, |enemies|, collide) <= bound
    requires |bound| - |enemiesBlasted0| <= active0
    ensures enemiesBlasted == enemiesBlasted0 + HitByLaser(i, |enemies|, collide)
    ensures BlastLog(blasted, enemiesBlasted, explosions, enemies)
    ensures active0 - active' == |blasted| - |blasted0|
    ensures hit == LaserHitsSome(|enemies|, collide, i)
    ensures blasted == blasted0 + LaserBlasts(i, |enemies|, enemiesBlasted0, collide)
    ensures explosions0 <= explosions
  {
    blasted, enemiesBlasted, explosions, active', hit := blasted0, enemiesBlasted0, explosions0, active0, false;
    for j := 0 to |enemies|
      invariant LaserSoFar(i, j, enemies, collide, bound, blasted0, enemiesBlasted0, explosions0, active0,
                           blasted, enemiesBlasted, explosions, active', hit)
    {
      blasted, enemiesBlasted, explosions, active', hit :=
        LaserMeetsEnemy(i, j, enemies, collide, bound, blasted0, enemiesBlasted0, explosions0, active0,
                        blasted, enemiesBlasted, explosions, active', hit);
    }
    BlastedByLaser(enemiesBlasted0, enemiesBlasted, i, |enemies|, collide);
  }

  /** The state of `player_laser_hit_enemy` after the first `i` lasers: the
      set holds the enemies they hit, the despawn list and the explosion
      markers agree with it, the counter is down by one per blasted enemy, the
      despawned lasers are those of the `i` that hit, and the blasted enemies
      so far followed by the rest of the pass's order give the whole order. */
  ghost predicate PassSoFar(i: nat, laserCount: nat, enemies: seq<Enemy>, collide: (nat, nat) -> bool, active: int,
                            order: seq<nat>, blasted: seq<nat>, enemiesBlasted: set<nat>, explosions: seq<Vec2>,
                            lasersDespawned: set<nat>, active': int)
  {
    && i <= laserCount
    && |HitEnemies(laserCount, |enemies|, collide)| <= active
    && order == BlastOrder(0, laserCount, |enemies|, collide)
    && enemiesBlasted == HitEnemies(i, |enemies|, collide)
    && BlastLog(blasted, enemiesBlasted, explosions, enemies)
    && active' == active - |blasted|
    && lasersDespawned == HittingLasers(i, |enemies|, collide)
    && blasted + BlastOrder(i, laserCount, |enemies|, collide) == order
  }

  /** Before any laser, nothing is blasted or despawned and the whole order is still ahead. */
  lemma PassStart(laserCount: nat, enemies: seq<Enemy>, collide: (nat, nat) -> bool, active: int, order: seq<nat>)
    requires |HitEnemies(laserCount, |enemies|, collide)| <= active
    requires order == BlastOrder(0, laserCount, |enemies|, collide)
    ensures PassSoFar(0, laserCount, enemies, collide, active, order, [], {}, [], {}, active)
  {
    assert HitEnemies(0, |enemies|, collide) == {};
    assert HittingLasers(0, |enemies|, collide) == {};
  }

  /** After every laser, the blasted enemies are those hit, in the pass's order. */
  lemma PassEnd(laserCount: nat, enemies: seq<Enemy>, collide: (nat, nat) -> bool, active: int, order: seq<nat>,
                blasted: seq<nat>, enemiesBlasted: set<nat>, explosions: seq<Vec2>, lasersDespawned: set<nat>, active': int)
    requires PassSoFar(laserCount, laserCount, enemies, collide, active, order, blasted, enemiesBlasted, explosions, lasersDespawned, active')
    ensures forall j: nat :: j in blasted <==> j in HitEnemies(laserCount, |enemies|, collide)
    ensures forall a, b :: 0 <= a < b < |blasted| ==> blasted[a] != blasted[b]
    ensures |blasted| == |HitEnemies(laserCount, |enemies|, collide)|
    ensures active' == active - |blasted|
    ensures |explosions| == |blasted|
    ensures forall k :: 0 <= k < |blasted| ==> blasted[k] < |enemies| && explosions[k] == enemies[blasted[k]].pos
    ensures lasersDespawned == HittingLasers(laserCount, |enemies|, collide)
    ensures blasted == order
  {
    assert BlastOrder(laserCount, laserCount, |enemies|, collide) == [];
    assert blasted + [] == blasted;
  }

  /** One iteration of the outer loop of `player_laser_hit_enemy`: laser `i`
      against every enemy, then its despawn if it hit any. */
  method LaserPass(i: nat, laserCount: nat, enemies: seq<Enemy>, collide: (nat, nat) -> bool, ghost active: int,
                   ghost order: seq<nat>, blasted0: seq<nat>, enemiesBlasted0: set<nat>, explosions0: seq<Vec2>,
                   lasersDespawned0: set<nat>, active0: U32)
    returns (blasted: seq<nat>, enemiesBlasted: set<nat>, explosions: seq<Vec2>, lasersDespawned: set<nat>, active': U32)
    requires i < laserCount
    requires PassSoFar(i, laserCount, enemies, collide, active, order, blasted0, enemiesBlasted0, explosions0, lasersDespawned0, active0)
    ensures PassSoFar(i + 1, laserCount, enemies, collide, active, order, blasted, enemiesBlasted, explosions, lasersDespawned, active')
  {
    ghost var all := HitEnemies(laserCount, |enemies|, collide);
    HitEnemiesNextLaser(i, |enemies|, collide);
    HittingLasersNextLaser(i, |enemies|, collide);
    HitEnemiesGrow(i + 1, laserCount, |enemies|, collide);
    var hit;
    blasted, enemiesBlasted, explosions, active', hit :=
      BlastWithLaser(i, enemies, collide, all, blasted0, enemiesBlasted0, explosions0, active0);
    BlastOrderNext(i, laserCount, |enemies|, collide, blasted0, enemiesBlasted0, blasted);
    lasersDespawned := lasersDespawned0;
    if hit {
      lasersDespawned := lasersDespawned + {i};
    }
  }

  /** `player_laser_hit_enemy`. Every laser is tested against every enemy;
      despawn commands take effect only after the pass, so an enemy already
      hit is still met by later lasers, and the `enemies_blasted` set keeps it
      from being despawned, counted down or exploded twice. Returns the
      blasted enemies in despawn order, one explosion marker per blasted
      enemy, the lasers despawned, and the new live-enemy counter. The
      counter is a `u32` decremented once per blasted enemy, so it must
      cover the enemies hit. */
  method PlayerLaserHitEnemy(lasers: seq<Laser>, enemies: seq<Enemy>, collide: (nat, nat) -> bool, active: U32)
    returns (blasted: seq<nat>, explosions: seq<Vec2>, lasersDespawned: set<nat>, active': U32)
    requires |HitEnemies(|lasers|, |enemies|, collide)| <= active
    ensures forall j: nat :: j in blasted <==> j in HitEnemies(|lasers|, |enemies|, collide)
    ensures forall a, b :: 0 <= a < b < |blasted| ==> blasted[a] != blasted[b]
    ensures |blasted| == |HitEnemies(|lasers|, |enemies|, collide)|
    ensures active' == active - |blasted|
    ensures |explosions| == |blasted|
    ensures forall k :: 0 <= k < |blasted| ==> blasted[k] < |enemies| && explosions[k] == enemies[blasted[k]].pos
    ensures lasersDespawned == HittingLasers(|lasers|, |enemies|, collide)
    ensures blasted == BlastOrder(0, |lasers|, |enemies|, collide)
  {
    ghost var order := BlastOrder(0, |lasers|, |enemies|, collide);
    var enemiesBlasted: set<nat> := {};
    blasted, explosions, lasersDespawned, active' := [], [], {}, active;
    PassStart(|lasers|, enemies, collide, active, order);
    for i := 0 to |lasers|
      invariant PassSoFar(i, |lasers|, enemies, collide, active, order, blasted, enemiesBlasted, explosions, lasersDespawned, active')
    {
      blasted, enemiesBlasted, explosions, lasersDespawned, active' :=
        LaserPass(i, |lasers|, enemies, collide, active, order, blasted, enemiesBlasted, explosions, lasersDespawned, active');
    }
    PassEnd(|lasers|, enemies, collide, active, order, blasted, enemiesBlasted, explosions, lasersDespawned, active');
  }

  /** `enemy_laser_hit_player`. With exactly one player ship, each enemy laser
      that collides with it is despawned, the ship is despawned, the player
      state is marked shot at `now`, and an explosion marker is queued at the
      ship's position; without exactly one ship nothing happens. Returns the
      despawned lasers in visiting order, the queued markers, and whether a
      despawn of the ship was issued. */
  method EnemyLaserHitPlayer(state: PlayerState, now: real, lasers: seq<Laser>, players: seq<PlayerShip>, hitsPlayer: nat -> bool)
    returns (lasersDespawned: seq<nat>, explosions: seq<Vec2>, playerDespawned: bool)
    modifies state
    ensures |players| != 1 ==>
      && lasersDespawned == [] && explosions == [] && !playerDespawned
      && state.on == old(state.on) && state.lastShot == old(state.lastShot)
    ensures |players| == 1 ==>
      && lasersDespawned == Where(|lasers|, hitsPlayer)
      && |explosions| == |lasersDespawned|
      && (forall k :: 0 <= k < |explosions| ==> explosions[k] == Vec2(players[0].x, players[0].y))
      && playerDespawned == (lasersDespawned != [])
      && (playerDespawned ==> !state.on && state.lastShot == now)
      && (!playerDespawned ==> state.on == old(state.on) && state.lastShot == old(state.lastShot))
  {
    lasersDespawned, explosions, playerDespawned := [], [], false;
    if |players| == 1 {
      var pos := Vec2(players[0].x, players[0].y);
      for i := 0 to |lasers|
        invariant lasersDespawned == Where(i, hitsPlayer)
        invariant |explosions| == |lasersDespawned|
        invariant forall k :: 0 <= k < |explosions| ==> explosions[k] == pos
        invariant playerDespawned == (lasersDespawned != [])
        invariant playerDespawned ==> !state.on && state.lastShot == now
        invariant !playerDespawned ==> state.on == old(state.on) && state.lastShot == old(state.lastShot)
      {
        if hitsPlayer(i) {
          playerDespawned := true;
          state.Shot(now);
          lasersDespawned := lasersDespawned + [i];
          explosions := explosions + [pos];
        }
      }
    }
  }

  /** An explosion entity: its translation and the index of the atlas
      texture it shows. */
  datatype Explosion = Explosion(pos: Vec2, index: nat)

  /** `explosion_to_spawn`: each queued marker is replaced by exactly one
      explosion at the marker's position, showing the first texture. */
  method ExplosionToSpawn(markers: seq<Vec2>) returns (explosions: seq<Explosion>)
    ensures |explosions| == |markers|
    ensures forall i :: 0 <= i < |markers| ==> explosions[i].pos == markers[i]
    ensures forall e :: e in explosions ==> e.index == 0
  {
    explosions := [];
    for i := 0 to |markers|
      invariant |explosions| == i
      invariant forall k :: 0 <= k < i ==> explosions[k] == Explosion(markers[k], 0)
    {
      explosions := explosions + [Explosion(markers[i], 0)];
    }
  }

  /** One frame of `animate_explosion` for one explosion whose timer did or
      did not finish: the texture index advances on a finished timer, and the
      explosion is despawned (None) exactly when the index reaches the number
      of textures in the atlas. */
  function AnimateOne(e: Explosion, finished: bool): (r: Option<Explosion>)
    ensures r.None? <==> finished && e.index + 1 == AtlasFrames
    ensures r.Some? ==> r.value.pos == e.pos && r.value.index == (if finished then e.index + 1 else e.index)
    ensures e.index < AtlasFrames && r.Some? ==> r.value.index < AtlasFrames
  {
    if !finished then Some(e)
    else
      var next := e.(index := e.index + 1);
      if next.index == AtlasFrames then None else Some(next)
  }

  /** The explosions left after one frame of `animate_explosion`, in order. */
  function AnimatedSurvivors(es: seq<Explosion>, finished: seq<bool>): (r: seq<Explosion>)
    requires |finished| == |es|
    ensures |r| <= |es|
    decreases |es|
  {
    if es == [] then []
    else
      var n := |es| - 1;
      var rest := AnimatedSurvivors(es[..n], finished[..n]);
      match AnimateOne(es[n], finished[n])
      case None => rest
      case Some(e) => rest + [e]
  }

  /** Every survivor of the frame is what `AnimateOne` made of some input explosion. */
  lemma {:induction false} AnimatedSurvivorsFrom(es: seq<Explosion>, finished: seq<bool>)
    requires |finished| == |es|
    ensures forall e :: e in AnimatedSurvivors(es, finished) ==>
      exists i :: 0 <= i < |es| && AnimateOne(es[i], finished[i]) == Some(e)
    decreases |es|
  {
    if es != [] {
      var n := |es| - 1;
      AnimatedSurvivorsFrom(es[..n], finished[..n]);
      forall e | e in AnimatedSurvivors(es, finished)
        ensures exists i :: 0 <= i < |es| && AnimateOne(es[i], finished[i]) == Some(e)
      {
        if e in AnimatedSurvivors(es[..n], finished[..n]) {
          var i :| 0 <= i < n && AnimateOne(es[..n][i], finished[..n][i]) == Some(e);
          assert es[..n][i] == es[i] && finished[..n][i] == finished[i];
        } else {
          assert AnimateOne(es[n], finished[n]) == Some(e);
        }
      }
    }
  }

  /** Every explosion that `AnimateOne` keeps is among the survivors of the frame. */
  lemma {:induction false} AnimatedSurvivorsKeeps(es: seq<Explosion>, finished: seq<bool>, i: nat)
    requires |finished| == |es| && i < |es|
    ensures AnimateOne(es[i], finished[i]).Some? ==> AnimateOne(es[i], finished[i]).value in AnimatedSurvivors(es, finished)
    decreases |es|
  {
    var n := |es| - 1;
    if i < n && AnimateOne(es[i], finished[i]).Some? {
      assert es[..n][i] == es[i] && finished[..n][i] == finished[i];
      AnimatedSurvivorsKeeps(es[..n], finished[..n], i);
      assert AnimatedSurvivors(es[..n], finished[..n]) <= AnimatedSurvivors(es, finished);
    }
  }

  /** Animation keeps order: a frame over two consecutive runs of explosions
      is the frame over the first followed by the frame over the second. */
  lemma {:induction false} AnimatedSurvivorsAppend(a: seq<Explosion>, fa: seq<bool>, b: seq<Explosion>, fb: seq<bool>)
    requires |fa| == |a| && |fb| == |b|
    ensures AnimatedSurvivors(a + b, fa + fb) == AnimatedSurvivors(a, fa) + AnimatedSurvivors(b, fb)
    decreases |b|
  {
    if b == [] {
      assert a + b == a && fa + fb == fa;
    } else {
      var ab, fab := a + b, fa + fb;
      var b', fb' := b[..|b| - 1], fb[..|fb| - 1];
      assert ab[..|ab| - 1] == a + b' && fab[..|fab| - 1] == fa + fb';
      var last := AnimateOne(b[|b| - 1], fb[|fb| - 1]);
      assert AnimateOne(ab[|ab| - 1], fab[|fab| - 1]) == last;
      var tail := if last.None? then [] else [last.value];
      assert AnimatedSurvivors(ab, fab) == AnimatedSurvivors(a + b', fa + fb') + tail;
      assert AnimatedSurvivors(b, fb) == AnimatedSurvivors(b', fb') + tail;
      AnimatedSurvivorsAppend(a, fa, b', fb');
    }
  }

  /** Animation keeps every explosion's index below the atlas size. */
  lemma {:induction false} AnimatedSurvivorsInAtlas(es: seq<Explosion>, finished: seq<bool>)
    requires |finished| == |es|
    requires forall e :: e in es ==> e.index < AtlasFrames
    ensures forall e :: e in AnimatedSurvivors(es, finished) ==> e.index < AtlasFrames
    decreases |es|
  {
    if es != [] {
      var n := |es| - 1;
      assert forall e :: e in es[..n] ==> e in es;
      AnimatedSurvivorsInAtlas(es[..n], finished[..n]);
    }
  }

  /** `animate_explosion`: given, per explosion, whether its repeating timer
      finished this frame. */
  method AnimateExplosion(explosions: seq<Explosion>, finished: seq<bool>) returns (kept: seq<Explosion>)
    requires |finished| == |explosions|
    ensures kept == AnimatedSurvivors(explosions, finished)
  {
    kept := [];
    for i := 0 to |explosions|
      invariant kept == AnimatedSurvivors(explosions[..i], finished[..i])
    {
      assert explosions[..i + 1][..i] == explosions[..i];
      assert finished[..i + 1][..i] == finished[..i];
      var e := explosions[i];
      if finished[i] {
        e := e.(index := e.index + 1);
        if e.index != AtlasFrames {
          kept := kept + [e];
        }
      } else {
        kept := kept + [e];
      }
    }
    assert explosions[..|explosions|] == explosions;
    assert finished[..|finished|] == finished;
  }

  /** How many of the frames had a finished timer. */
  function FinishedCount(ticks: seq<bool>): nat
    decreases |ticks|
  {
    if ticks == [] then 0 else (if ticks[0] then 1 else 0) + FinishedCount(ticks[1..])
  }

  /** One explosion followed over a run of frames; None once it is despawned. */
  function AfterFrames(e: Explosion, ticks: seq<bool>): Option<Explosion>
    decreases |ticks|
  {
    if ticks == [] then Some(e)
    else
      match AnimateOne(e, ticks[0])
      case None => None
      case Some(e') => AfterFrames(e', ticks[1..])
  }

  /** An explosion shows each texture of the atlas in turn, one per finished
      timer, and is despawned on the finished timer that would take it past
      the last one. */
  lemma {:induction false} ExplosionLifetime(e: Explosion, ticks: seq<bool>)
    requires e.index < AtlasFrames
    ensures AfterFrames(e, ticks) ==
      if e.index + FinishedCount(ticks) < AtlasFrames
      then Some(e.(index := e.index + FinishedCount(ticks)))
      else None
    decreases |ticks|
  {
    if ticks != [] {
      match AnimateOne(e, ticks[0])
      case None =>
      case Some(e') => ExplosionLifetime(e', ticks[1..]);
    }
  }
}
