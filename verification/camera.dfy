/** The client camera: it eases toward the local player, stays inside the
    current map, and shakes with an intensity that is capped and decays. */
module Camera {
  import opened Common

  /** World sizes of the two maps, in world units. */
  const ShipWidth: real := 3072.0
  const ShipHeight: real := 3072.0
  const PlanetWidth: real := 4608.0
  const PlanetHeight: real := 3072.0

  /** The share of the remaining distance the camera covers per update. */
  const FollowRate: real := 0.1
  const MaxShake: real := 15.0
  const ShakeDecay: real := 0.9
  /** Intensities below this snap to zero. */
  const ShakeFloor: real := 0.5

  /** The camera part of the client state. */
  datatype View = View(camX: real, camY: real, shakeX: real, shakeY: real, intensity: real, currentMap: string)

  datatype Canvas = Canvas(width: real, height: real)

  /** What the camera needs of the local player: the position and the map the
      server says it is on (missing or empty when unknown). */
  datatype Target = Target(x: real, y: real, currentMap: Option<string>)

  /** The state a client starts with: on the ship, at the origin, still. */
  const InitialView := View(0.0, 0.0, 0.0, 0.0, 0.0, "ship")

  /** Width and height of the named map; every name but "planet" is the ship. */
  function WorldSize(mapName: string): (r: (real, real))
    ensures mapName == "planet" ==> r == (PlanetWidth, PlanetHeight)
    ensures mapName != "planet" ==> r == (ShipWidth, ShipHeight)
  {
    if mapName == "planet" then (PlanetWidth, PlanetHeight) else (ShipWidth, ShipHeight)
  }

  /** `addShake`: a new jolt adds to the intensity, which never passes 15. */
  function AddShake(intensity: real, amount: real): (r: real)
    ensures r <= MaxShake
    ensures r <= intensity + amount
    ensures intensity + amount <= MaxShake ==> r == intensity + amount
    ensures intensity + amount > MaxShake ==> r == MaxShake
  {
    Min(intensity + amount, MaxShake)
  }

  /** One easing step of the camera toward the target along one axis. */
  function Follow(cam: real, target: real): (r: real)
    ensures target - r == (1.0 - FollowRate) * (target - cam)
    ensures cam <= target ==> cam <= r <= target
    ensures target <= cam ==> target <= r <= cam
    ensures cam != target ==> Abs(target - r) < Abs(target - cam)
  {
    cam + (target - cam) * FollowRate
  }

  /** Keep the camera centre on one axis far enough from the world's edges
      that the canvas shows no outside, or centre it when the canvas is at
      least as large as the world. */
  function ClampAxis(cam: real, canvasSize: real, world: real): (r: real)
    ensures canvasSize < world ==> canvasSize / 2.0 <= r <= world - canvasSize / 2.0
    ensures canvasSize >= world ==> r == world / 2.0
    ensures canvasSize < world && canvasSize / 2.0 <= cam <= world - canvasSize / 2.0 ==> r == cam
  {
    var clamped := Max(canvasSize / 2.0, Min(world - canvasSize / 2.0, cam));
    if canvasSize >= world then world / 2.0 else clamped
  }

  /** The shake offsets for this update and the intensity left for the next. */
  datatype Shake = Shake(x: real, y: real, intensity: real)

  /** The intensity after one update with no new jolt. */
  function Decay(intensity: real): (r: real)
    ensures intensity > 0.0 ==> r == 0.0 || (r == ShakeDecay * intensity && r >= ShakeFloor)
    ensures intensity > 0.0 ==> 0.0 <= r < intensity
    ensures intensity <= 0.0 ==> r == intensity
  {
    if intensity > 0.0 then
      var next := intensity * ShakeDecay;
      if next < ShakeFloor then 0.0 else next
    else intensity
  }

  /** A random offset `(r - 0.5) * a * 2` never exceeds `a` either way. */
  lemma JitterWithin(r: Unit, a: real)
    requires a > 0.0
    ensures Abs((r - 0.5) * a * 2.0) <= a
  {
    assert (r - 0.5) * a * 2.0 == (2.0 * r - 1.0) * a;
    assert -1.0 <= 2.0 * r - 1.0 <= 1.0;
  }

  /** One shake update, with `rx`, `ry` the two random draws. */
  function ShakeStep(intensity: real, rx: Unit, ry: Unit): (s: Shake)
    ensures s.intensity == Decay(intensity)
    ensures intensity <= 0.0 ==> s.x == 0.0 && s.y == 0.0
    ensures Abs(s.x) <= Max(intensity, 0.0) && Abs(s.y) <= Max(intensity, 0.0)
  {
    if intensity > 0.0 then
      JitterWithin(rx, intensity);
      JitterWithin(ry, intensity);
      Shake((rx - 0.5) * intensity * 2.0, (ry - 0.5) * intensity * 2.0, Decay(intensity))
    else Shake(0.0, 0.0, intensity)
  }

  /** The intensity after `n` updates with no new jolt. */
  function Settled(intensity: real, n: nat): real
    decreases n
  {
    if n == 0 then intensity else Settled(Decay(intensity), n - 1)
  }

  /** `b` to the power `n`. */
  function Pow(b: nat, n: nat): nat
  {
    if n == 0 then 1 else b * Pow(b, n - 1)
  }

  lemma {:induction false} PowAdd(b: nat, m: nat, n: nat)
    ensures Pow(b, m + n) == Pow(b, m) * Pow(b, n)
    decreases m
  {
    if m > 0 {
      PowAdd(b, m - 1, n);
      assert Pow(b, m + n) == b * Pow(b, m - 1 + n);
    }
  }

  /** Without the snap the intensity would shrink by 0.9 per update; the snap
      only lowers it further. Stated over integers: after `n` updates the
      intensity is at most `bound * 9^n / 10^n`. */
  lemma {:induction false} SettledBound(intensity: real, bound: real, n: nat)
    requires 0.0 <= intensity <= bound
    ensures 0.0 <= Settled(intensity, n)
    ensures Settled(intensity, n) * Pow(10, n) as real <= bound * Pow(9, n) as real
    ensures n > 0 ==> Settled(intensity, n) == 0.0 || Settled(intensity, n) >= ShakeFloor
    decreases n
  {
    if n > 0 {
      var rest := Settled(Decay(intensity), n - 1);
      SettledBound(Decay(intensity), ShakeDecay * bound, n - 1);
      assert rest * Pow(10, n - 1) as real <= ShakeDecay * bound * Pow(9, n - 1) as real;
      assert Pow(10, n) as real == 10.0 * Pow(10, n - 1) as real;
      assert Pow(9, n) as real == 9.0 * Pow(9, n - 1) as real;
      assert rest * Pow(10, n) as real == 10.0 * (rest * Pow(10, n - 1) as real);
    }
  }

  /** Any shake, however it was built up, is over 33 updates after the last
      jolt: 15 * 0.9^33 is already below the snap threshold. */
  lemma ShakeDiesWithin33Updates(intensity: real)
    requires 0.0 <= intensity <= MaxShake
    ensures Settled(intensity, 33) == 0.0
  {
    PowsAt33();
    SettledVanishes(intensity, 33);
  }

  /** A shake up to the cap is over after `n` quiet updates once 0.9^n is
      below 1/30, since 15 * 0.9^n is then below the snap threshold. */
  lemma SettledVanishes(intensity: real, n: nat)
    requires 0.0 <= intensity <= MaxShake && n > 0 && 30 * Pow(9, n) < Pow(10, n)
    ensures Settled(intensity, n) == 0.0
  {
    SettledBound(intensity, MaxShake, n);
    BelowFloor(Settled(intensity, n), Pow(10, n) as real, Pow(9, n) as real);
  }

  /** 0.9^33 is below 1/30. */
  lemma PowsAt33()
    ensures 30 * Pow(9, 33) < Pow(10, 33)
  {
    PowsAt11();
    PowAdd(9, 11, 22);
    PowAdd(9, 11, 11);
    PowAdd(10, 11, 22);
    PowAdd(10, 11, 11);
  }

  /** 9^11 and 10^11, from which the 33-update bound is built. */
  lemma PowsAt11()
    ensures Pow(9, 11) == 31381059609 && Pow(10, 11) == 100000000000
  {
    PowAdd(9, 5, 6);
    PowAdd(10, 5, 6);
  }

  /** An intensity whose bound, scaled by `ten / nine > 30`, stays within the
      cap is below the snap threshold. */
  lemma BelowFloor(s: real, ten: real, nine: real)
    requires 0.0 <= s && 0.0 < ten && s * ten <= MaxShake * nine && 30.0 * nine < ten
    ensures s < ShakeFloor
  {
  }

  /** `updateCamera`. Without a local player the view is left as it is;
      otherwise the map name is adopted when the server sends a non-empty one,
      the camera eases toward the player and is clamped into that map, and the
      shake advances one step. */
  function UpdateCamera(v: View, me: Option<Target>, canvas: Canvas, rx: Unit, ry: Unit): (r: View)
    ensures me.None? ==> r == v
    ensures me.Some? && me.value.currentMap.Some? && me.value.currentMap.value != "" ==>
      r.currentMap == me.value.currentMap.value
    ensures me.Some? && (me.value.currentMap.None? || me.value.currentMap.value == "") ==>
      r.currentMap == v.currentMap
    ensures me.Some? && canvas.width < WorldSize(r.currentMap).0 ==>
      canvas.width / 2.0 <= r.camX <= WorldSize(r.currentMap).0 - canvas.width / 2.0
    ensures me.Some? && canvas.height < WorldSize(r.currentMap).1 ==>
      canvas.height / 2.0 <= r.camY <= WorldSize(r.currentMap).1 - canvas.height / 2.0
    ensures me.Some? && canvas.width >= WorldSize(r.currentMap).0 ==> r.camX == WorldSize(r.currentMap).0 / 2.0
    ensures me.Some? && canvas.height >= WorldSize(r.currentMap).1 ==> r.camY == WorldSize(r.currentMap).1 / 2.0
    ensures me.Some? ==> r.camX == ClampAxis(Follow(v.camX, me.value.x), canvas.width, WorldSize(r.currentMap).0)
    ensures me.Some? ==> r.camY == ClampAxis(Follow(v.camY, me.value.y), canvas.height, WorldSize(r.currentMap).1)
    ensures me.Some? ==> Shake(r.shakeX, r.shakeY, r.intensity) == ShakeStep(v.intensity, rx, ry)
    ensures me.Some? ==> r.intensity == Decay(v.intensity)
    ensures me.Some? && v.intensity <= 0.0 ==> r.shakeX == 0.0 && r.shakeY == 0.0
    ensures Abs(r.shakeX) <= Max(v.intensity, Abs(v.shakeX)) && Abs(r.shakeY) <= Max(v.intensity, Abs(v.shakeY))
  {
    match me
    case None => v
    case Some(t) =>
      var mapName := if t.currentMap.Some? && t.currentMap.value != "" then t.currentMap.value else v.currentMap;
      var size := WorldSize(mapName);
      var s := ShakeStep(v.intensity, rx, ry);
      View(ClampAxis(Follow(v.camX, t.x), canvas.width, size.0),
           ClampAxis(Follow(v.camY, t.y), canvas.height, size.1),
           s.x, s.y, s.intensity, mapName)
  }

  /** Inside the map the camera closes a tenth of its distance to the player
      on each axis per update: the remaining gap is 0.9 of the old one. */
  lemma EasesTowardPlayer(v: View, t: Target, canvas: Canvas, rx: Unit, ry: Unit)
    requires t.currentMap.None?
    requires canvas.width < WorldSize(v.currentMap).0 && canvas.height < WorldSize(v.currentMap).1
    requires canvas.width / 2.0 <= v.camX <= WorldSize(v.currentMap).0 - canvas.width / 2.0
    requires canvas.width / 2.0 <= t.x <= WorldSize(v.currentMap).0 - canvas.width / 2.0
    requires canvas.height / 2.0 <= v.camY <= WorldSize(v.currentMap).1 - canvas.height / 2.0
    requires canvas.height / 2.0 <= t.y <= WorldSize(v.currentMap).1 - canvas.height / 2.0
    ensures var r := UpdateCamera(v, Some(t), canvas, rx, ry);
      && t.x - r.camX == 0.9 * (t.x - v.camX)
      && t.y - r.camY == 0.9 * (t.y - v.camY)
  {
  }

  /** The shake part of an update, read off the view: a player who is already
      centred and inside the map sees only the shake move. */
  lemma CentredPlayerOnlyShakes(v: View, t: Target, canvas: Canvas, rx: Unit, ry: Unit)
    requires t.currentMap.None? && v.camX == t.x && v.camY == t.y
    requires canvas.width / 2.0 <= t.x <= WorldSize(v.currentMap).0 - canvas.width / 2.0
    requires canvas.height / 2.0 <= t.y <= WorldSize(v.currentMap).1 - canvas.height / 2.0
    requires canvas.width < WorldSize(v.currentMap).0 && canvas.height < WorldSize(v.currentMap).1
    ensures var r := UpdateCamera(v, Some(t), canvas, rx, ry);
      r.camX == v.camX && r.camY == v.camY && r.currentMap == v.currentMap
  {
  }

  /** `worldToScreen`: a pure translation that puts the camera at the centre of
      the canvas, displaced by the current shake. */
  function WorldToScreen(v: View, canvas: Canvas, wx: real, wy: real): (r: (real, real))
    ensures r.0 - (canvas.width / 2.0 + v.shakeX) == wx - v.camX
    ensures r.1 - (canvas.height / 2.0 + v.shakeY) == wy - v.camY
  {
    (wx - v.camX + canvas.width / 2.0 + v.shakeX, wy - v.camY + canvas.height / 2.0 + v.shakeY)
  }

  /** Two world points keep their offset on the screen, and the camera point
      lands on the shaken canvas centre. */
  lemma WorldToScreenIsTranslation(v: View, canvas: Canvas, px: real, py: real, qx: real, qy: real)
    ensures WorldToScreen(v, canvas, px, py).0 - WorldToScreen(v, canvas, qx, qy).0 == px - qx
    ensures WorldToScreen(v, canvas, px, py).1 - WorldToScreen(v, canvas, qx, qy).1 == py - qy
    ensures WorldToScreen(v, canvas, v.camX, v.camY) == (canvas.width / 2.0 + v.shakeX, canvas.height / 2.0 + v.shakeY)
  {
  }
}
