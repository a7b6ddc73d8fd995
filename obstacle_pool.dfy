/** The fixed pool of obstacle slots: first-free spawning, the depth model
    that turns Z into a size and a screen position, and retirement at the
    bottom of the screen. */
module ObstaclePool {
  import opened Numeric
  import opened Components

  datatype Option<T> = None | Some(value: T)

  predicate AllActive(slots: seq<Slot>) {
    forall j :: 0 <= j < |slots| ==> slots[j].depth.active
  }

  /** The lowest-index inactive slot, if any. */
  function FirstFree(slots: seq<Slot>): (r: Option<nat>)
    ensures r.Some? ==> r.value < |slots| && !slots[r.value].depth.active && AllActive(slots[..r.value])
    ensures r.None? <==> AllActive(slots)
  {
    if |slots| == 0 then None
    else if !slots[0].depth.active then Some(0)
    else match FirstFree(slots[1..])
      case None => None
      case Some(j) =>
        assert slots[..j + 1] == [slots[0]] + slots[1..][..j];
        Some(j + 1)
  }

  /** spawnObstacle: fill the lowest-index inactive slot with the spawn
      values; a full pool is left alone. */
  function Spawn(slots: seq<Slot>): (r: seq<Slot>)
    ensures |r| == |slots|
    ensures AllActive(slots) ==> r == slots
    ensures forall i :: 0 <= i < |slots| ==>
              r[i] == if !slots[i].depth.active && AllActive(slots[..i]) then SpawnedSlot else slots[i]
  {
    match FirstFree(slots)
    case None => slots
    case Some(k) =>
      forall i | 0 <= i < |slots| && i != k
        ensures !(!slots[i].depth.active && AllActive(slots[..i]))
      {
        if i > k {
          assert slots[..i][k] == slots[k];
        }
      }
      slots[k := SpawnedSlot]
  }

  function ActiveCount(slots: seq<Slot>): nat {
    if |slots| == 0 then 0 else (if slots[0].depth.active then 1 else 0) + ActiveCount(slots[1..])
  }

  lemma {:induction false} ActiveCountUpdate(slots: seq<Slot>, i: nat, x: Slot)
    requires i < |slots|
    ensures ActiveCount(slots[i := x]) + (if slots[i].depth.active then 1 else 0)
         == ActiveCount(slots) + (if x.depth.active then 1 else 0)
  {
    if i > 0 {
      assert slots[i := x][1..] == slots[1..][i - 1 := x];
      ActiveCountUpdate(slots[1..], i - 1, x);
    } else {
      assert slots[i := x][1..] == slots[1..];
    }
  }

  /** A spawn adds exactly one active obstacle, unless the pool is full. */
  lemma SpawnAddsOne(slots: seq<Slot>)
    ensures ActiveCount(Spawn(slots)) == ActiveCount(slots) + (if AllActive(slots) then 0 else 1)
  {
    match FirstFree(slots)
    case None =>
    case Some(k) => ActiveCountUpdate(slots, k, SpawnedSlot);
  }

  /** The retirement test: the bottom edge stored by the previous update
      lies exactly on the bottom of the screen. */
  predicate AtBoundary(s: Slot) {
    s.pos.y + s.drawable.size == ScreenSize
  }

  predicate Retiring(s: Slot) {
    s.depth.active && AtBoundary(s)
  }

  /** How far below the spawn point an obstacle at depth `z` is drawn. */
  function Descent(z: real): int {
    Trunc(z * DepthSpan)
  }

  /** The size of an obstacle at depth `z`: it grows from the base size by
      floor(z * (max - base)), so it reaches the max size at z = 1 and keeps
      growing beyond it. */
  function GrownSize(base: nat, max: nat, z: real): (size: nat)
    requires base <= max && 0.0 <= z
    ensures base <= size
    ensures (size - base) as real <= z * (max - base) as real < (size - base + 1) as real
  {
    var span := (max - base) as real;
    var grown := z * span;
    MulNonneg(z, span);
    base + Trunc(grown)
  }

  /** updateObstacle: advance Z; retire a slot that the previous update left
      on the bottom edge; otherwise recompute size and position from Z and
      clamp them to the screen. */
  function AdvanceSlot(s: Slot): (r: Slot)
    requires WellFormed(s.depth)
    ensures WellFormed(r.depth)
    ensures AtBoundary(s) ==> r == EmptySlot
    ensures !AtBoundary(s) ==> r.depth == s.depth.(z := s.depth.z + s.depth.speed)
    ensures !AtBoundary(s) ==> r.drawable.color == s.drawable.color
    ensures !AtBoundary(s) ==> r.drawable.size == GrownSize(s.depth.baseSize, s.depth.maxSize, r.depth.z)
    // Clamped: never below the screen, never past the sides while it fits.
    ensures !AtBoundary(s) ==> r.pos.y + r.drawable.size <= ScreenSize
    ensures !AtBoundary(s) && r.drawable.size <= ScreenSize ==>
              0 <= r.pos.x && r.pos.x + r.drawable.size <= ScreenSize
    // Unclamped, it is centred on the spawn column and descends with Z.
    ensures !AtBoundary(s) && 0 <= SpawnX - r.drawable.size / 2 && SpawnX - r.drawable.size / 2 + r.drawable.size <= ScreenSize ==>
              r.pos.x == SpawnX - r.drawable.size / 2
    ensures !AtBoundary(s) && SpawnY + Descent(r.depth.z) + r.drawable.size <= ScreenSize ==>
              r.pos.y == SpawnY + Descent(r.depth.z)
    // Reaching or passing the bottom puts it exactly on the bottom edge.
    ensures !AtBoundary(s) && SpawnY + Descent(r.depth.z) + r.drawable.size >= ScreenSize ==> AtBoundary(r)
  {
    var z := s.depth.z + s.depth.speed;
    if AtBoundary(s) then
      EmptySlot
    else
      var size := GrownSize(s.depth.baseSize, s.depth.maxSize, z);
      var x0 := SpawnX - size / 2;
      var y0 := SpawnY + Descent(z);
      var x1 := if x0 < 0 then 0 else x0;
      var x := if x1 + size > ScreenSize then ScreenSize - size else x1;
      var y := if y0 + size > ScreenSize then ScreenSize - size else y0;
      Slot(Position(x, y), s.drawable.(size := size), s.depth.(z := z))
  }

  /** obstacleSystem's sweep: every active slot is advanced, in index order. */
  function AdvanceAll(slots: seq<Slot>): (r: seq<Slot>)
    requires PoolWellFormed(slots)
    ensures |r| == |slots| && PoolWellFormed(r)
    ensures forall i :: 0 <= i < |slots| && !slots[i].depth.active ==> r[i] == slots[i]
    ensures forall i :: 0 <= i < |slots| && slots[i].depth.active ==> r[i] == AdvanceSlot(slots[i])
  {
    seq(|slots|, i requires 0 <= i < |slots| => if slots[i].depth.active then AdvanceSlot(slots[i]) else slots[i])
  }

  /** The sweep over the first i + 1 slots is the sweep over the first i
      followed by slot i on its own. */
  lemma SweepExtends(slots: seq<Slot>, i: nat)
    requires PoolWellFormed(slots) && i < |slots|
    ensures AdvanceAll(slots[..i + 1]) + slots[i + 1..]
         == (AdvanceAll(slots[..i]) + slots[i..])[i := if slots[i].depth.active then AdvanceSlot(slots[i]) else slots[i]]
  {
    var a := AdvanceAll(slots[..i + 1]) + slots[i + 1..];
    var b := (AdvanceAll(slots[..i]) + slots[i..])[i := if slots[i].depth.active then AdvanceSlot(slots[i]) else slots[i]];
    assert |a| == |b|;
    forall j | 0 <= j < |a| ensures a[j] == b[j] {
      if j < i {
        assert slots[..i + 1][j] == slots[..i][j];
      }
    }
  }

  /** The life of one slot: `n` sweeps of obstacleSystem over it. */
  function Advanced(s: Slot, n: nat): (r: Slot)
    requires WellFormed(s.depth)
    ensures WellFormed(r.depth)
  {
    if n == 0 then s
    else
      var t := Advanced(s, n - 1);
      if t.depth.active then AdvanceSlot(t) else t
  }

  /** For its first 357 frames a freshly spawned obstacle stays active, with
      Z growing by Speed every frame and its bottom edge above the screen's. */
  lemma {:induction false} SpawnedSlotApproaches(n: nat)
    requires n <= 357
    ensures Advanced(SpawnedSlot, n).depth == SpawnedSlot.depth.(z := n as real * ObstacleSpeed)
    ensures Advanced(SpawnedSlot, n).pos.y + Advanced(SpawnedSlot, n).drawable.size < ScreenSize
  {
    if n > 0 {
      SpawnedSlotApproaches(n - 1);
      var t := Advanced(SpawnedSlot, n - 1);
      var r := AdvanceSlot(t);
      var z := n as real * ObstacleSpeed;
      assert r.depth.z == z;
      var size := r.drawable.size;
      assert (size - 2) as real <= z * 28.0;
      assert Descent(z) as real <= z * 40.0;
      if n == 357 {
        assert size <= 41;
        assert Descent(z) <= 57;
      }
      assert SpawnY + Descent(z) + size < ScreenSize;
    }
  }

  /** On frame 358 the obstacle lands exactly on the bottom edge while still
      active (retirement tests the previous frame's position), at a size
      above MaxSize (Z is never capped at 1); frame 359 retires it. */
  lemma SpawnedSlotLifetime()
    ensures Advanced(SpawnedSlot, 358).depth.active && AtBoundary(Advanced(SpawnedSlot, 358))
    ensures Advanced(SpawnedSlot, 358).drawable.size == 42 > SpawnMaxSize
    ensures Advanced(SpawnedSlot, 359) == EmptySlot
  {
    SpawnedSlotApproaches(357);
    var t := Advanced(SpawnedSlot, 357);
    var r := AdvanceSlot(t);
    assert Advanced(SpawnedSlot, 358) == r;
    var z := r.depth.z;
    assert z == 1.432;
    assert (r.drawable.size - 2) as real <= 40.096 < (r.drawable.size - 1) as real;
    assert r.drawable.size == 42;
    assert Descent(z) == 57;
    assert AtBoundary(r);
    assert Advanced(SpawnedSlot, 359) == AdvanceSlot(r);
  }

  /** A retired slot stays retired: the sweep skips inactive slots. */
  lemma {:induction false} SpawnedSlotStaysRetired(n: nat)
    requires 359 <= n
    ensures Advanced(SpawnedSlot, n) == EmptySlot
  {
    if n == 359 {
      SpawnedSlotLifetime();
    } else {
      SpawnedSlotStaysRetired(n - 1);
    }
  }
}
