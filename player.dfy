/** The player side of the game (src/player.rs): the player-state resource
    with its shot/spawned latches, the respawn rule, horizontal movement
    bounded by the window, the fire latch on the Space key, and the player
    laser movement system. */
module Player {
  import opened Common

  const PlayerSpriteHeight: real := 75.0
  const PlayerSpriteWidth: real := 144.0

  /** Seconds the player stays down after being shot. */
  const RespawnDelay: real := 2.0

  /** Gap between the bottom edge of the window and the respawned ship. */
  const SpawnPadding: real := 5.0

  /** Player lasers appear 15 units above the ship ... */
  const LaserRise: real := 15.0

  /** ... and this far to either side of its centre. */
  const LaserSideOffset: real := PlayerSpriteWidth / 4.0 - 5.0

  /** The `PlayerStatte` resource: whether a ship is on screen, and when it was last shot. */
  class PlayerState {
    var on: bool
    var lastShot: real

    /** `PlayerStatte::default()`. */
    constructor ()
      ensures !on && lastShot == 0.0
    {
      on, lastShot := false, 0.0;
    }

    method Shot(time: real)
      modifies this
      ensures !on && lastShot == time
    {
      on := false;
      lastShot := time;
    }

    method Spawned()
      modifies this
      ensures on && lastShot == 0.0
    {
      on := true;
      lastShot := 0.0;
    }
  }

  /** The player entity: its translation, its window-size component, and its
      `PlayerReadyFire` flag. */
  class PlayerShip {
    var x: real
    var y: real
    var readyFire: bool
    const window: WindowSize

    constructor (w: WindowSize)
      ensures x == 0.0 && y == SpawnY(w) && readyFire && window == w
    {
      x, y, readyFire := 0.0, SpawnY(w), true;
      window := w;
    }

    /** One frame of `player_movment` for this ship. */
    method Move(left: bool, right: bool)
      modifies this`x
      ensures x == MovedX(old(x), Movement(left, right), Limit(window))
    {
      var movement := Movement(left, right);
      var limit := Limit(window);
      var reachLimit := x + movement > limit || x + movement < -limit;
      if !reachLimit {
        x := x + movement;
      }
    }

    /** One frame of `player_fire` for this ship. */
    method Fire(spacePressed: bool, spaceJustReleased: bool) returns (lasers: seq<Laser>)
      modifies this`readyFire
      ensures (lasers != [], readyFire) == FireLatch(old(readyFire), spacePressed, spaceJustReleased)
      ensures lasers != [] ==> lasers == FiredLasers(x, y)
    {
      lasers := [];
      if readyFire && spacePressed {
        lasers := FiredLasers(x, y);
        readyFire := false;
      }
      if spaceJustReleased {
        readyFire := true;
      }
    }
  }

  /** Height at which a ship spawns: a quarter sprite plus padding above the bottom edge. */
  function SpawnY(w: WindowSize): real
  {
    -w.height / 2.0 + PlayerSpriteHeight / 4.0 + SpawnPadding
  }

  /** The respawn condition of `player_spawn`: no ship on screen, and either
      never shot (a last-shot time of 0) or shot more than the delay ago. */
  predicate RespawnAdmitted(on: bool, lastShot: real, now: real)
  {
    !on && (lastShot == 0.0 || now > lastShot + RespawnDelay)
  }

  /** `player_spawn`, run at start-up and every 0.5 s. */
  method PlayerSpawn(state: PlayerState, now: real, w: WindowSize) returns (spawned: Option<PlayerShip>)
    modifies state
    ensures spawned.Some? <==> RespawnAdmitted(old(state.on), old(state.lastShot), now)
    ensures old(state.on) ==> spawned.None?
    ensures spawned.Some? ==>
      && fresh(spawned.value)
      && state.on && state.lastShot == 0.0
      && spawned.value.x == 0.0 && spawned.value.y == SpawnY(w)
      && spawned.value.readyFire && spawned.value.window == w
    ensures spawned.None? ==> state.on == old(state.on) && state.lastShot == old(state.lastShot)
  {
    var lastShot := state.lastShot;
    if !state.on && (lastShot == 0.0 || now > lastShot + RespawnDelay) {
      var ship := new PlayerShip(w);
      state.Spawned();
      spawned := Some(ship);
    } else {
      spawned := None;
    }
  }

  /** A whole life cycle of the player state from its default: the first
      spawn succeeds, an immediate second one does nothing, and after a shot
      at time `t` a spawn at time `now` succeeds exactly when `t` is the
      "never shot" value 0 or `now` is more than the delay after `t`. */
  method RespawnCycle(w: WindowSize, t: real, now: real) returns (first: bool, second: bool, afterShot: bool)
    ensures first && !second
    ensures afterShot <==> t == 0.0 || now > t + RespawnDelay
  {
    var state := new PlayerState();
    var s := PlayerSpawn(state, 0.0, w);
    first := s.Some?;
    s := PlayerSpawn(state, 0.0, w);
    second := s.Some?;
    state.Shot(t);
    s := PlayerSpawn(state, now, w);
    afterShot := s.Some?;
  }

  /** The horizontal bound of the ship's centre: half the window, less a quarter sprite. */
  function Limit(w: WindowSize): real
  {
    w.width / 2.0 - PlayerSpriteWidth / 4.0
  }

  /** The displacement of one frame: left wins over right, none without a key. */
  function Movement(left: bool, right: bool): (m: real)
    ensures m < 0.0 <==> left
    ensures m > 0.0 <==> !left && right
  {
    (if left then -1.0 else if right then 1.0 else 0.0) * DefaultSpeed * TimePerFrame
  }

  /** The boundary rule of `player_movment`: a move is applied only if it
      lands within [-limit, limit], so a ship within the bounds stays there. */
  function MovedX(x: real, movement: real, limit: real): (r: real)
    ensures -limit <= x + movement <= limit ==> r == x + movement
    ensures !(-limit <= x + movement <= limit) ==> r == x
    ensures -limit <= x <= limit ==> -limit <= r <= limit
  {
    var reachLimit := x + movement > limit || x + movement < -limit;
    if reachLimit then x else x + movement
  }

  /** `player_movment`: acts only when exactly one player ship exists. */
  method PlayerMovement(players: seq<PlayerShip>, left: bool, right: bool)
    modifies players`x
    ensures |players| == 1 ==>
      players[0].x == MovedX(old(players[0].x), Movement(left, right), Limit(players[0].window))
    ensures |players| != 1 ==> forall p :: p in players ==> p.x == old(p.x)
  {
    if |players| == 1 {
      players[0].Move(left, right);
    }
  }

  /** The two lasers of a shot: one each side of the ship, just above it. */
  function FiredLasers(x: real, y: real): (ls: seq<Laser>)
    ensures |ls| == 2
    ensures ls[0].pos == Vec2(x + LaserSideOffset, y + LaserRise)
    ensures ls[1].pos == Vec2(x - LaserSideOffset, y + LaserRise)
    ensures forall l :: l in ls ==> l.speed == DefaultSpeed
  {
    [Laser(Vec2(x + LaserSideOffset, y + LaserRise), DefaultSpeed),
     Laser(Vec2(x - LaserSideOffset, y + LaserRise), DefaultSpeed)]
  }

  /** The `PlayerReadyFire` latch for one frame: whether the ship fires, and
      the flag afterwards. It fires only when armed and Space is held; firing
      disarms it, and releasing Space re-arms it. */
  function FireLatch(ready: bool, pressed: bool, justReleased: bool): (r: (bool, bool))
    ensures r.0 <==> ready && pressed
    ensures r.1 <==> justReleased || (ready && !pressed)
  {
    var fires := ready && pressed;
    var afterFire := if fires then false else ready;
    (fires, if justReleased then true else afterFire)
  }

  /** `player_fire`: acts only when exactly one player ship exists. */
  method PlayerFire(players: seq<PlayerShip>, spacePressed: bool, spaceJustReleased: bool) returns (lasers: seq<Laser>)
    modifies players`readyFire
    ensures |players| == 1 ==>
      && (lasers != [], players[0].readyFire) == FireLatch(old(players[0].readyFire), spacePressed, spaceJustReleased)
      && (lasers != [] ==> lasers == FiredLasers(old(players[0].x), old(players[0].y)))
    ensures |players| != 1 ==> lasers == [] && forall p :: p in players ==> p.readyFire == old(p.readyFire)
  {
    lasers := [];
    if |players| == 1 {
      lasers := players[0].Fire(spacePressed, spaceJustReleased);
    }
  }

  /** The Space key as seen in one frame. */
  datatype SpaceKey = SpaceKey(pressed: bool, justReleased: bool)

  /** How many shots the latch lets through over a run of frames. */
  function FireCount(ready: bool, frames: seq<SpaceKey>): nat
    decreases |frames|
  {
    if frames == [] then 0
    else
      var r := FireLatch(ready, frames[0].pressed, frames[0].justReleased);
      (if r.0 then 1 else 0) + FireCount(r.1, frames[1..])
  }

  /** Holding Space fires once: over frames in which Space is never released,
      an armed ship fires at most one shot, and exactly one when Space is held
      in the first frame; a disarmed ship fires none. */
  lemma {:induction false} HeldSpaceFiresOnce(ready: bool, frames: seq<SpaceKey>)
    requires forall i :: 0 <= i < |frames| ==> !frames[i].justReleased
    ensures FireCount(ready, frames) <= (if ready then 1 else 0)
    ensures ready && frames != [] && frames[0].pressed ==> FireCount(ready, frames) == 1
    decreases |frames|
  {
    if frames != [] {
      var r := FireLatch(ready, frames[0].pressed, frames[0].justReleased);
      HeldSpaceFiresOnce(r.1, frames[1..]);
    }
  }

  /** A player laser moves up by its speed times the frame step. */
  function PlayerLaserStep(l: Laser): (r: Laser)
    ensures r.pos.y > l.pos.y <==> l.speed > 0.0
  {
    Lifted(l, l.speed * TimePerFrame)
  }

  /** The despawn test of `laser_movment`: above the window's height. */
  function AboveScreen(w: WindowSize): Laser -> bool
  {
    (l: Laser) => l.pos.y > w.height
  }

  /** `laser_movment`: every player laser moves up one step; those now above
      the window's height are despawned. */
  method PlayerLaserMovement(lasers: seq<Laser>, w: WindowSize) returns (kept: seq<Laser>)
    ensures kept == MoveAndCull(lasers, PlayerLaserStep, AboveScreen(w))
    ensures forall l :: l in kept ==> l.pos.y <= w.height
  {
    kept := [];
    for i := 0 to |lasers|
      invariant kept == MoveAndCull(lasers[..i], PlayerLaserStep, AboveScreen(w))
    {
      assert lasers[..i + 1][..i] == lasers[..i];
      var l := PlayerLaserStep(lasers[i]);
      if !AboveScreen(w)(l) {
        kept := kept + [l];
      }
    }
    assert lasers[..|lasers|] == lasers;
  }
}
