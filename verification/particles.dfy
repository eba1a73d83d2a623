/** Client-side visual effects: spark particles and floating damage/heal
    numbers, both advanced each frame and dropped once their life runs out. */
module Particles {

  /** A spark: position, velocity, seconds of life left, and how it is drawn. */
  datatype Particle = Particle(x: real, y: real, vx: real, vy: real, life: real, size: real, color: string)

  /** A floating number: it only rises (or sinks) vertically. */
  datatype FloatText = FloatText(x: real, y: real, vy: real, life: real, text: string, color: string)

  /** The elements of `xs` that satisfy `keep`, in their original order. */
  function Cull<T>(xs: seq<T>, keep: T -> bool): (r: seq<T>)
    ensures |r| <= |xs|
    ensures forall k :: 0 <= k < |r| ==> keep(r[k])
  {
    if xs == [] then [] else (if keep(xs[0]) then [xs[0]] else []) + Cull(xs[1..], keep)
  }

  /** Culling keeps an element exactly when it is in the input and satisfies
      the test. */
  lemma {:induction false} CullMembership<T>(xs: seq<T>, keep: T -> bool, x: T)
    ensures x in Cull(xs, keep) <==> x in xs && keep(x)
    decreases |xs|
  {
    if xs != [] {
      CullMembership(xs[1..], keep, x);
      assert xs == [xs[0]] + xs[1..];
    }
  }

  /** Culling works piecewise, so the survivors of an earlier stretch stay
      ahead of those of a later one: relative order is kept. */
  lemma {:induction false} CullAppend<T>(a: seq<T>, b: seq<T>, keep: T -> bool)
    ensures Cull(a + b, keep) == Cull(a, keep) + Cull(b, keep)
    decreases |a|
  {
    if a == [] {
      assert a + b == b;
    } else {
      CullAppend(a[1..], b, keep);
      assert (a + b)[0] == a[0];
      assert (a + b)[1..] == a[1..] + b;
    }
  }

  /** Each element of `xs` advanced by `step`. */
  function Advance<T>(xs: seq<T>, step: T -> T): (r: seq<T>)
    ensures |r| == |xs|
    ensures forall k :: 0 <= k < |xs| ==> r[k] == step(xs[k])
  {
    seq(|xs|, k requires 0 <= k < |xs| => step(xs[k]))
  }

  /** The source's in-place update: walk the list from the back, advance each
      element, and splice it out when `keep` rejects it. Walking backwards
      means a splice never shifts an element still to be visited. */
  method Sweep<T>(xs: seq<T>, step: T -> T, keep: T -> bool) returns (out: seq<T>)
    ensures out == Cull(Advance(xs, step), keep)
  {
    out := xs;
    var i := |xs|;
    while i > 0
      invariant 0 <= i <= |xs|
      invariant out == xs[..i] + Cull(Advance(xs[i..], step), keep)
    {
      i := i - 1;
      var moved := step(out[i]);
      ghost var tail := Advance(xs[i + 1..], step);
      assert Advance(xs[i..], step) == [moved] + tail;
      assert out[..i] == xs[..i];
      assert out[i + 1..] == Cull(tail, keep);
      if keep(moved) {
        out := out[..i] + [moved] + out[i + 1..];
      } else {
        out := out[..i] + out[i + 1..];
      }
    }
    assert xs[0..] == xs;
  }

  /** A particle one frame of `dt` seconds later. */
  function Drift(dt: real): Particle -> Particle
  {
    (p: Particle) => p.(x := p.x + p.vx * dt, y := p.y + p.vy * dt, life := p.life - dt)
  }

  /** A floating text one frame later: only its height and life change. */
  function Rise(dt: real): FloatText -> FloatText
  {
    (t: FloatText) => t.(y := t.y + t.vy * dt, life := t.life - dt)
  }

  predicate Glowing(p: Particle) { p.life > 0.0 }

  predicate Showing(t: FloatText) { t.life > 0.0 }

  /** `updateParticles`: both lists advanced by one frame and culled. */
  method UpdateParticles(ps: seq<Particle>, ts: seq<FloatText>, dt: real)
    returns (ps': seq<Particle>, ts': seq<FloatText>)
    ensures ps' == Cull(Advance(ps, Drift(dt)), Glowing)
    ensures ts' == Cull(Advance(ts, Rise(dt)), Showing)
    ensures forall k :: 0 <= k < |ps'| ==> ps'[k].life > 0.0
    ensures forall k :: 0 <= k < |ts'| ==> ts'[k].life > 0.0
  {
    ps' := Sweep(ps, Drift(dt), Glowing);
    ts' := Sweep(ts, Rise(dt), Showing);
  }

  /** A particle survives the frame exactly when its advanced life is still
      positive, and it comes out advanced by its velocity. */
  lemma ParticleSurvivesIffAlive(ps: seq<Particle>, dt: real, k: int)
    requires 0 <= k < |ps|
    ensures Drift(dt)(ps[k]) in Cull(Advance(ps, Drift(dt)), Glowing) <==> ps[k].life - dt > 0.0
    ensures forall q :: q in Cull(Advance(ps, Drift(dt)), Glowing) ==>
      q.life > 0.0 && (exists j :: 0 <= j < |ps| && q == ps[j].(x := ps[j].x + ps[j].vx * dt, y := ps[j].y + ps[j].vy * dt, life := ps[j].life - dt))
  {
    var adv := Advance(ps, Drift(dt));
    CullMembership(adv, Glowing, adv[k]);
    forall q | q in Cull(adv, Glowing)
      ensures q.life > 0.0 && (exists j :: 0 <= j < |ps| && q == ps[j].(x := ps[j].x + ps[j].vx * dt, y := ps[j].y + ps[j].vy * dt, life := ps[j].life - dt))
    {
      CullMembership(adv, Glowing, q);
      var j :| 0 <= j < |adv| && adv[j] == q;
      assert q == ps[j].(x := ps[j].x + ps[j].vx * dt, y := ps[j].y + ps[j].vy * dt, life := ps[j].life - dt);
    }
  }

  /** A floating text survives exactly when its advanced life is positive, and
      a surviving text has moved only vertically: everything but `y` and `life`
      is as it was. */
  lemma FloatTextSurvivesIffAlive(ts: seq<FloatText>, dt: real, k: int)
    requires 0 <= k < |ts|
    ensures Rise(dt)(ts[k]) in Cull(Advance(ts, Rise(dt)), Showing) <==> ts[k].life - dt > 0.0
    ensures forall t :: t in Cull(Advance(ts, Rise(dt)), Showing) ==>
      t.life > 0.0 && exists j :: 0 <= j < |ts| && t == ts[j].(y := ts[j].y + ts[j].vy * dt, life := ts[j].life - dt)
  {
    var adv := Advance(ts, Rise(dt));
    CullMembership(adv, Showing, adv[k]);
    forall t | t in Cull(adv, Showing)
      ensures t.life > 0.0 && exists j :: 0 <= j < |ts| && t == ts[j].(y := ts[j].y + ts[j].vy * dt, life := ts[j].life - dt)
    {
      CullMembership(adv, Showing, t);
      var j :| 0 <= j < |adv| && adv[j] == t;
      assert t == ts[j].(y := ts[j].y + ts[j].vy * dt, life := ts[j].life - dt);
    }
  }
}
