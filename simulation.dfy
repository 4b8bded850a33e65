/**
 * One step of the main loop: the tree is built once from the particles as
 * they are at the start of the step, then each particle in array order is
 * kicked by a traversal of that tree and drifts by its new velocity times
 * dt. The particle whose index is the view index has its traversal drawn.
 */
module Simulation {
  import opened Geometry
  import opened QuadTree
  import opened Traversal

  /** The time step `dt`. */
  const Dt: real := 0.00005

  /** The opening threshold `theta`. */
  const Theta: real := 0.6

  /** `drawOn`: the step count modulo which a frame is drawn. */
  const DrawOn: int := 1

  /** The buffer of the main loop: entry i points at particle i. */
  function Iota(n: nat): (s: seq<nat>)
    ensures |s| == n && forall j :: 0 <= j < n ==> s[j] == j
  {
    if n == 0 then [] else Iota(n - 1) + [n - 1]
  }

  /** The tree of a step, over the whole particle array and the world rectangle. */
  function Tree(ps: seq<Particle>): (t: Node)
    ensures t.bounds == Root
    ensures t.kind.Sub? ==> |t.kind.branch| == 4
    ensures ps == [] ==> t.kind.Neither? && t.mass == 0.0 && t.com == Undefined
  {
    Build(ps, Iota(|ps|), Root)
  }

  /** `pX += vX * dt; pY += vY * dt`: only the position moves, by the velocity times dt. */
  function Advance(p: Particle): (q: Particle)
    ensures q.vx == p.vx && q.vy == p.vy && q.mass == p.mass
    ensures q.px - p.px == p.vx * Dt && q.py - p.py == p.vy * Dt
  {
    p.(px := p.px + p.vx * Dt, py := p.py + p.vy * Dt)
  }

  /**
   * One particle's update within a step: kicked by the tree, then moved by
   * its NEW velocity (semi-implicit Euler); its mass does not change.
   */
  function StepOne(p: Particle, t: Node, kick: Kick, nanDist: int): (q: Particle)
    ensures q.mass == p.mass
    ensures q.px == p.px + q.vx * Dt && q.py == p.py + q.vy * Dt
    ensures q.vx - p.vx == Pull(Interactions(t, p.px, p.py, Theta, nanDist), p.px, p.py, kick).0
    ensures q.vy - p.vy == Pull(Interactions(t, p.px, p.py, Theta, nanDist), p.px, p.py, kick).1
  {
    Advance(Kicked(p, Interactions(t, p.px, p.py, Theta, nanDist), kick))
  }

  /** The whole array after one step: every particle sees the tree of the old array. */
  function StepAll(ps: seq<Particle>, kick: Kick, nanDist: int): (qs: seq<Particle>)
    ensures |qs| == |ps|
    ensures forall j :: 0 <= j < |ps| ==> qs[j].mass == ps[j].mass
  {
    var t := Tree(ps);
    seq(|ps|, j requires 0 <= j < |ps| => StepOne(ps[j], t, kick, nanDist))
  }

  /** The rectangles drawn for the viewed particle, if it exists and the frame is drawn. */
  function Overlay(ps: seq<Particle>, viewInd: int, steps: int, nanDist: int): (o: seq<Rect>)
    ensures o != [] ==> 0 <= viewInd < |ps| && steps % DrawOn == 0
    ensures 0 <= viewInd < |ps| ==> |o| <= Visits(Tree(ps), ps[viewInd].px, ps[viewInd].py, Theta, nanDist)
  {
    if 0 <= viewInd < |ps| && steps % DrawOn == 0 then
      Outlines(Interactions(Tree(ps), ps[viewInd].px, ps[viewInd].py, Theta, nanDist))
    else []
  }

  /**
   * The body of the main loop for one step. The array ends as `StepAll` of
   * the array it started as; the view index and the step count only decide
   * what is drawn.
   */
  method Step(particles: array<Particle>, viewInd: int, steps: int, kick: Kick, nanDist: int)
    returns (overlay: seq<Rect>)
    modifies particles
    ensures particles[..] == StepAll(old(particles[..]), kick, nanDist)
    ensures overlay == Overlay(old(particles[..]), viewInd, steps, nanDist)
  {
    ghost var ps0 := particles[..];
    var buffer := Iota(particles.Length);
    var tree := GenTree(particles[..], buffer, Root);
    BuildWellShaped(ps0, buffer, Root);
    overlay := [];
    for i := 0 to particles.Length
      invariant forall j :: 0 <= j < i ==> particles[j] == StepOne(ps0[j], tree, kick, nanDist)
      invariant forall j :: i <= j < particles.Length ==> particles[j] == ps0[j]
      invariant overlay == if i > viewInd then Overlay(ps0, viewInd, steps, nanDist) else []
    {
      var show := i == viewInd && steps % DrawOn == 0;
      var drawn;
      ghost var calls;
      drawn, calls := UpdateParticle(particles, i, tree, Theta, nanDist, kick, show);
      if i == viewInd {
        overlay := drawn;
      }
      particles[i] := Advance(particles[i]);
    }
    assert particles[..] == StepAll(ps0, kick, nanDist);
  }

  /* ---------------------------------------------------------------------- */
  /* Lemmas                                                                  */
  /* ---------------------------------------------------------------------- */

  /**
   * A particle alone in the world rectangle, with non-zero mass, takes no
   * kick: it moves in a straight line at its own velocity.
   */
  lemma LoneParticleDrifts(p: Particle, kick: Kick, nanDist: int)
    requires InRect(Root, p.px, p.py) && p.mass != 0.0
    ensures StepAll([p], kick, nanDist) == [Advance(p)]
  {
    var ps := [p];
    assert Iota(1) == [0];
    assert Filter(ps, [0], Root) == [0];
    Classification(ps, [0], Root);
    NoSelfKick(ps, [0], Root, 0, Theta, nanDist);
  }

  /** The tree of a step is the same for two arrays that differ only in velocities. */
  lemma TreeIgnoresVelocity(ps: seq<Particle>, qs: seq<Particle>)
    requires SamePlacement(ps, qs)
    ensures Tree(ps) == Tree(qs)
  {
    BuildIgnoresVelocity(ps, qs, Iota(|ps|), Root);
  }
}
