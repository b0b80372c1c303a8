/** Shared vocabulary of the game: the window, positions, the per-frame time
    step, the default speed of every moving entity, and the linear
    "move every laser, then despawn the ones that left the screen" pattern
    that both the player's and the enemies' laser systems follow. */
module Common {

  /** The largest value of a Rust `u32`. */
  const U32Max: nat := 0xFFFF_FFFF

  /** A Rust `u32`: counters in the game are unsigned 32-bit integers. */
  type U32 = x: nat | x <= U32Max

  /** Every movement system integrates with a fixed 1/60 s step rather than the frame's real duration. */
  const TimePerFrame: real := 1.0 / 60.0

  /** `Speed::default()`: every player, enemy and laser moves at 500 units per second. */
  const DefaultSpeed: real := 500.0

  datatype Option<T> = None | Some(value: T)

  /** A 2D translation; the z layer of a transform only orders sprites on screen. */
  datatype Vec2 = Vec2(x: real, y: real)

  datatype WindowSize = WindowSize(width: real, height: real)

  /** A laser entity: its translation and its speed component. */
  datatype Laser = Laser(pos: Vec2, speed: real)

  /** The laser moved vertically by `dy`. */
  function Lifted(l: Laser, dy: real): (r: Laser)
    ensures r.pos.y == l.pos.y + dy && r.pos.x == l.pos.x && r.speed == l.speed
  {
    l.(pos := l.pos.(y := l.pos.y + dy))
  }

  /** One pass of a laser-movement system: every laser is moved by `move`, and
      those whose new position satisfies `gone` are despawned; the others stay,
      in their original order. */
  function MoveAndCull(ls: seq<Laser>, move: Laser -> Laser, gone: Laser -> bool): (r: seq<Laser>)
    ensures |r| <= |ls|
    ensures forall l :: l in r ==> !gone(l)
    ensures forall l :: l in r ==> exists i :: 0 <= i < |ls| && l == move(ls[i])
    decreases |ls|
  {
    if ls == [] then []
    else
      var l := move(ls[|ls| - 1]);
      var rest := MoveAndCull(ls[..|ls| - 1], move, gone);
      assert forall k :: k in rest ==> exists i :: 0 <= i < |ls| && k == move(ls[i]) by {
        forall k | k in rest ensures exists i :: 0 <= i < |ls| && k == move(ls[i]) {
          var i :| 0 <= i < |ls| - 1 && k == move(ls[..|ls| - 1][i]);
          assert ls[..|ls| - 1][i] == ls[i];
        }
      }
      rest + (if gone(l) then [] else [l])
  }

  /** Culling keeps order: a pass over two consecutive runs of lasers is the
      pass over the first followed by the pass over the second. */
  lemma {:induction false} MoveAndCullAppend(a: seq<Laser>, b: seq<Laser>, move: Laser -> Laser, gone: Laser -> bool)
    ensures MoveAndCull(a + b, move, gone) == MoveAndCull(a, move, gone) + MoveAndCull(b, move, gone)
    decreases |b|
  {
    if b == [] {
      assert a + b == a;
    } else {
      var ab := a + b;
      assert ab[..|ab| - 1] == a + b[..|b| - 1];
      assert ab[|ab| - 1] == b[|b| - 1];
      MoveAndCullAppend(a, b[..|b| - 1], move, gone);
    }
  }

  /** A laser survives the pass exactly when its moved position is not `gone`. */
  lemma {:induction false} MoveAndCullKeeps(ls: seq<Laser>, move: Laser -> Laser, gone: Laser -> bool, i: nat)
    requires i < |ls|
    ensures move(ls[i]) in MoveAndCull(ls, move, gone) <==> !gone(move(ls[i]))
    decreases |ls|
  {
    var r := MoveAndCull(ls, move, gone);
    if !gone(move(ls[i])) {
      if i == |ls| - 1 {
        assert r[|r| - 1] == move(ls[i]);
      } else {
        assert ls[..|ls| - 1][i] == ls[i];
        MoveAndCullKeeps(ls[..|ls| - 1], move, gone, i);
        assert MoveAndCull(ls[..|ls| - 1], move, gone) <= r;
      }
    }
  }

  /** The indices below `n` satisfying `p`, in increasing order: the order in
      which a system loop meets the entities it acts on. */
  function Where(n: nat, p: nat -> bool): (r: seq<nat>)
    ensures forall k: nat :: k in r <==> k < n && p(k)
    ensures forall a, b :: 0 <= a < b < |r| ==> r[a] < r[b]
    decreases n
  {
    if n == 0 then []
    else
      var before := Where(n - 1, p);
      assert forall a :: 0 <= a < |before| ==> before[a] < n - 1 by {
        forall a | 0 <= a < |before| ensures before[a] < n - 1 {
          assert before[a] in before;
        }
      }
      before + (if p(n - 1) then [n - 1] else [])
  }

  /** A set contained in another one is no larger. */
  lemma {:induction false} SubsetCard(a: set<nat>, b: set<nat>)
    requires a <= b
    ensures |a| <= |b|
    decreases |b|
  {
    if a != {} {
      var x :| x in a;
      SubsetCard(a - {x}, b - {x});
    }
  }
}
