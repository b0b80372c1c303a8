/** The enemy side of the game (src/enemy.rs): the formation maker that hands
    out flight paths in batches of two, the population-capped spawn system,
    the enemy fire system and the enemy laser movement system. */
module Enemy {
  import opened Common

  /** `MAX_ENEMIES`: the cap on live enemies checked by the spawn system. */
  const MaxEnemies: nat := 5

  /** `MAX_FORMATION_MEMBERS`: how many enemies share one formation. */
  const MaxFormationMembers: nat := 2

  /** Distance below an enemy at which its laser appears. */
  const LaserDrop: real := 15.0

  /** An enemy's flight path: entry point, ellipse radii and centre, phase
      angle, and the id of the batch that produced it. */
  datatype Formation = Formation(start: Vec2, radius: Vec2, offset: Vec2, angle: real, groupId: nat)

  /** An enemy entity: its translation, its speed and the formation it follows. */
  datatype Enemy = Enemy(pos: Vec2, speed: real, formation: Formation)

  /** The random draws `make` takes when it synthesises a new formation: the
      coin for the entry side, the entry height, the ellipse centre, the x
      radius, and the initial phase angle (an `atan2` of the others in the game). */
  datatype Draw = Draw(coin: bool, startY: real, offsetX: real, offsetY: real, radiusX: real, angle: real)

  /** Half the vertical span in which formations start and orbit. */
  function HSpan(w: WindowSize): real { w.height / 2.0 - 100.0 }

  /** Half the horizontal span in which ellipse centres lie. */
  function WSpan(w: WindowSize): real { w.width / 4.0 }

  /** The draws lie in the half-open ranges `gen_range` samples from; such
      draws exist only when those ranges are non-empty, which is also when
      `gen_range` does not panic. */
  predicate DrawInRange(w: WindowSize, d: Draw)
  {
    && -HSpan(w) <= d.startY < HSpan(w)
    && -WSpan(w) <= d.offsetX < WSpan(w)
    && 0.0 <= d.offsetY < HSpan(w)
    && 80.0 <= d.radiusX < 150.0
  }

  /** A freshly synthesised formation with batch id `id`. */
  function NewFormation(w: WindowSize, d: Draw, id: nat): (f: Formation)
    requires DrawInRange(w, d)
    ensures f.groupId == id
    ensures f.start.x == (if d.coin then w.width else w.height)
    ensures -HSpan(w) <= f.start.y < HSpan(w)
    ensures -WSpan(w) <= f.offset.x < WSpan(w) && 0.0 <= f.offset.y < HSpan(w)
    ensures f.radius.y == 100.0 && 80.0 <= f.radius.x < 150.0
    ensures f.radius.x > 0.0 && f.radius.y > 0.0
  {
    var x := if d.coin then w.width else w.height;
    Formation(Vec2(x, d.startY), Vec2(d.radiusX, 100.0), Vec2(d.offsetX, d.offsetY), d.angle, id)
  }

  /** The state of a `FormationMaker` as a value. */
  datatype Maker = Maker(groupSeq: U32, current: Option<Formation>, members: U32)

  /** `FormationMaker::default()`. */
  const DefaultMaker := Maker(0, None, 0)

  /** `make` synthesises a new formation when there is none yet or the current
      one has been handed out to a full batch. */
  predicate NeedsNew(m: Maker)
  {
    m.current.None? || m.members >= MaxFormationMembers
  }

  /** What `make` may be asked in state `m`: a new formation needs in-range
      draws and a `group_seq` that `+= 1` does not overflow. */
  predicate MakeAllowed(m: Maker, w: WindowSize, d: Draw)
  {
    NeedsNew(m) ==> DrawInRange(w, d) && m.groupSeq < U32Max
  }

  /** The invariant a maker keeps from its default state on: at most a full
      batch, a current formation exactly when one was handed out, and that
      formation carrying the last issued id. */
  predicate MakerInv(m: Maker)
  {
    && m.members <= MaxFormationMembers
    && (m.current.Some? <==> m.members >= 1)
    && (m.current.Some? ==> m.current.value.groupId == m.groupSeq)
  }

  /** `FormationMaker::make` on values: the new maker state and the formation handed out. */
  function MakeStep(m: Maker, w: WindowSize, d: Draw): (r: (Maker, Formation))
    requires MakeAllowed(m, w, d)
    ensures NeedsNew(m) ==>
      && r.0.groupSeq == m.groupSeq + 1
      && r.1.groupId == r.0.groupSeq
      && r.1 == NewFormation(w, d, r.0.groupSeq)
      && r.0.members == 1
      && r.0.current == Some(r.1)
    ensures !NeedsNew(m) ==>
      && r.0.groupSeq == m.groupSeq
      && r.0.members == m.members + 1
      && r.0.current == m.current
      && r.1 == m.current.value
    ensures 1 <= r.0.members <= MaxFormationMembers && r.0.current.Some?
    ensures MakerInv(m) ==> MakerInv(r.0)
  {
    if NeedsNew(m) then
      var f := NewFormation(w, d, m.groupSeq + 1);
      (Maker(m.groupSeq + 1, Some(f), 1), f)
    else
      (m.(members := m.members + 1), m.current.value)
  }

  /** The process-wide formation maker resource, updated in place by `make`. */
  class FormationMaker {
    var groupSeq: U32
    var current: Option<Formation>
    var members: U32

    function State(): Maker
      reads this
    {
      Maker(groupSeq, current, members)
    }

    constructor ()
      ensures State() == DefaultMaker
    {
      groupSeq, current, members := 0, None, 0;
    }

    method Make(w: WindowSize, d: Draw) returns (f: Formation)
      requires MakeAllowed(State(), w, d)
      modifies this
      ensures (State(), f) == MakeStep(old(State()), w, d)
    {
      if NeedsNew(State()) {
        groupSeq := groupSeq + 1;
        f := NewFormation(w, d, groupSeq);
        current := Some(f);
        members := 1;
      } else {
        members := members + 1;
        f := current.value;
      }
    }
  }

  /** The batch ids handed out by a run of `make` calls from `m`, one draw per call. */
  function IssuedIds(m: Maker, w: WindowSize, ds: seq<Draw>): (ids: seq<nat>)
    requires forall i :: 0 <= i < |ds| ==> DrawInRange(w, ds[i])
    requires m.groupSeq + |ds| <= U32Max
    ensures |ids| == |ds|
    decreases |ds|
  {
    if ds == [] then []
    else
      var r := MakeStep(m, w, ds[0]);
      [r.1.groupId] + IssuedIds(r.0, w, ds[1..])
  }

  /** From any reachable maker state with a current formation, the `i`-th id
      handed out is `groupSeq + (i + members) / 2`: each id is issued for a
      full batch of two, then the next id follows. */
  lemma {:induction false} IssuedIdsClosedForm(m: Maker, w: WindowSize, ds: seq<Draw>)
    requires forall i :: 0 <= i < |ds| ==> DrawInRange(w, ds[i])
    requires m.groupSeq + |ds| <= U32Max
    requires MakerInv(m) && m.current.Some?
    ensures forall i :: 0 <= i < |ds| ==> IssuedIds(m, w, ds)[i] == m.groupSeq + (i + m.members) / 2
    decreases |ds|
  {
    if ds != [] {
      var r := MakeStep(m, w, ds[0]);
      var ids := IssuedIds(m, w, ds);
      var rest := IssuedIds(r.0, w, ds[1..]);
      assert ids == [r.1.groupId] + rest;
      IssuedIdsClosedForm(r.0, w, ds[1..]);
      forall i | 0 <= i < |ds| ensures ids[i] == m.groupSeq + (i + m.members) / 2 {
        if i > 0 {
          assert ids[i] == rest[i - 1];
          if m.members == 2 {
            assert (i - 1 + 1) / 2 + 1 == (i + 2) / 2;
          } else {
            assert (i - 1 + 2) / 2 == (i + 1) / 2;
          }
        }
      }
    }
  }

  /** From the default maker, the `i`-th id is `i / 2 + 1`: ids start at 1
      and each id is handed out to exactly two consecutive enemies. */
  lemma IssuedIdsFromDefault(w: WindowSize, ds: seq<Draw>)
    requires forall i :: 0 <= i < |ds| ==> DrawInRange(w, ds[i])
    requires |ds| <= U32Max
    ensures forall i :: 0 <= i < |ds| ==> IssuedIds(DefaultMaker, w, ds)[i] == i / 2 + 1
  {
    if ds != [] {
      var r := MakeStep(DefaultMaker, w, ds[0]);
      var ids := IssuedIds(DefaultMaker, w, ds);
      var rest := IssuedIds(r.0, w, ds[1..]);
      assert ids == [r.1.groupId] + rest;
      IssuedIdsClosedForm(r.0, w, ds[1..]);
      forall i | 0 < i < |ds| ensures ids[i] == i / 2 + 1 {
        assert ids[i] == rest[i - 1];
        assert 1 + (i - 1 + 1) / 2 == i / 2 + 1;
      }
    }
  }

  /** The batch ids seen from the default maker start at 1, never decrease,
      grow by exactly 1 when they change, and no id is handed out more than
      `MaxFormationMembers` times in a row. */
  lemma IssuedIdsBatches(w: WindowSize, ds: seq<Draw>)
    requires forall i :: 0 <= i < |ds| ==> DrawInRange(w, ds[i])
    requires |ds| <= U32Max
    ensures var ids := IssuedIds(DefaultMaker, w, ds);
      && (|ids| > 0 ==> ids[0] == 1)
      && (forall i :: 0 <= i < |ids| - 1 ==> ids[i + 1] == ids[i] || ids[i + 1] == ids[i] + 1)
      && (forall i :: 0 <= i < |ids| - MaxFormationMembers ==> ids[i] != ids[i + MaxFormationMembers])
  {
    IssuedIdsFromDefault(w, ds);
  }

  /** `enemy_spawn`, run once per second: below the cap, one enemy is spawned
      at the entry point of the formation `make` hands out, and the counter
      goes up by one; at the cap nothing happens. */
  method EnemySpawn(active: U32, maker: FormationMaker, w: WindowSize, d: Draw)
    returns (active': U32, spawned: Option<Enemy>)
    requires active < MaxEnemies ==> MakeAllowed(maker.State(), w, d)
    modifies maker
    ensures active < MaxEnemies ==>
      && active' == active + 1
      && spawned.Some?
      && (maker.State(), spawned.value.formation) == MakeStep(old(maker.State()), w, d)
      && spawned.value.pos == spawned.value.formation.start
      && spawned.value.speed == DefaultSpeed
    ensures active >= MaxEnemies ==>
      active' == active && spawned.None? && maker.State() == old(maker.State())
    ensures active <= MaxEnemies ==> active' <= MaxEnemies
  {
    if active < MaxEnemies {
      var formation := maker.Make(w, d);
      spawned := Some(Enemy(formation.start, DefaultSpeed, formation));
      active' := active + 1;
    } else {
      active', spawned := active, None;
    }
  }

  /** Six spawn ticks from an empty game with no enemy destroyed meanwhile:
      the counter reads 1, 2, 3, 4, 5 and then stays at 5, and the five
      enemies spawned come in batches of two per formation. */
  method SpawnTicksFromEmpty(w: WindowSize, d: Draw) returns (counts: seq<nat>, ids: seq<nat>)
    requires DrawInRange(w, d)
    ensures counts == [1, 2, 3, 4, 5, 5]
    ensures ids == [1, 1, 2, 2, 3]
  {
    var maker := new FormationMaker();
    var active: U32 := 0;
    counts, ids := [], [];
    var tick := 0;
    while tick < 6
      invariant 0 <= tick <= 6
      invariant active == (if tick < MaxEnemies then tick else MaxEnemies)
      invariant counts == [1, 2, 3, 4, 5, 5][..tick]
      invariant ids == [1, 1, 2, 2, 3][..active]
      invariant MakerInv(maker.State()) && maker.groupSeq == (active + 1) / 2
      invariant maker.members == (if active % 2 == 1 then 1 else if active == 0 then 0 else 2)
    {
      var spawned;
      active, spawned := EnemySpawn(active, maker, w, d);
      if spawned.Some? {
        ids := ids + [spawned.value.formation.groupId];
      }
      counts := counts + [active];
      tick := tick + 1;
    }
  }

  /** `enemy_fire`, run every 0.9 s: one laser per live enemy, 15 units below
      it, at the default speed, in the order the enemies are visited. */
  method EnemyFire(enemies: seq<Enemy>) returns (lasers: seq<Laser>)
    ensures |lasers| == |enemies|
    ensures forall i :: 0 <= i < |enemies| ==>
      lasers[i] == Laser(Vec2(enemies[i].pos.x, enemies[i].pos.y - LaserDrop), DefaultSpeed)
  {
    lasers := [];
    for i := 0 to |enemies|
      invariant |lasers| == i
      invariant forall k :: 0 <= k < i ==>
        lasers[k] == Laser(Vec2(enemies[k].pos.x, enemies[k].pos.y - LaserDrop), DefaultSpeed)
    {
      var pos := enemies[i].pos;
      lasers := lasers + [Laser(Vec2(pos.x, pos.y - LaserDrop), DefaultSpeed)];
    }
  }

  /** An enemy laser moves down by its speed times the frame step. */
  function EnemyLaserStep(l: Laser): (r: Laser)
    ensures r.pos.y < l.pos.y <==> l.speed > 0.0
  {
    Lifted(l, -(l.speed * TimePerFrame))
  }

  /** The despawn test of `enemy_laser_movment`: 50 units below the bottom edge. */
  function BelowScreen(w: WindowSize): Laser -> bool
  {
    (l: Laser) => l.pos.y < -w.height / 2.0 - 50.0
  }

  /** `enemy_laser_movment`: every enemy laser moves down one step; those now
      below the bottom edge by more than 50 units are despawned. */
  method EnemyLaserMovement(lasers: seq<Laser>, w: WindowSize) returns (kept: seq<Laser>)
    ensures kept == MoveAndCull(lasers, EnemyLaserStep, BelowScreen(w))
    ensures forall l :: l in kept ==> l.pos.y >= -w.height / 2.0 - 50.0
  {
    kept := [];
    for i := 0 to |lasers|
      invariant kept == MoveAndCull(lasers[..i], EnemyLaserStep, BelowScreen(w))
    {
      assert lasers[..i + 1][..i] == lasers[..i];
      var l := EnemyLaserStep(lasers[i]);
      if !BelowScreen(w)(l) {
        kept := kept + [l];
      }
    }
    assert lasers[..|lasers|] == lasers;
  }
}
