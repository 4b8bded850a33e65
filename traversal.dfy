/**
 * The Barnes-Hut traversal `updateParticle`: starting at a node, a particle
 * skips the node when the approximate distance to its centre of mass is 0,
 * opens it when it is internal and width / distance exceeds theta, and
 * otherwise takes one point-mass kick from it (and, when the tree is being
 * shown, draws its rectangle).
 *
 * The kick itself, computed in C with floats, `pow` and `sqrt`, is a
 * parameter: a function of the node's mass, the node's centre and the
 * particle's position that gives the change in velocity.
 */
module Traversal {
  import opened Geometry
  import opened QuadTree

  /** Velocity change from one node: (mass, centre, px, py) to (dvx, dvy). */
  type Kick = (real, Centre, real, real) -> (real, real)

  /** C's conversion of a float to int: truncation toward zero. */
  function Trunc(x: real): (n: int)
    ensures x >= 0.0 ==> n as real <= x < n as real + 1.0
    ensures x < 0.0 ==> n as real - 1.0 < x <= n as real
  {
    if x >= 0.0 then x.Floor else -((-x).Floor)
  }

  /** C's `abs` on an int. */
  function IntAbs(n: int): (a: nat)
    ensures a == n || a == -n
  {
    if n < 0 then -n else n
  }

  /**
   * `distApprox`: |(int)(mX - pX)| + |(int)(mY - pY)|, an integer. For a node
   * without a centre (mass 0) the C expression converts NaN to int, which C
   * leaves undefined; the value it takes is the parameter `nanDist`.
   */
  function Dist(c: Centre, px: real, py: real, nanDist: int): (d: int)
    ensures c.At? ==> d >= 0
    ensures c.At? ==> (d == 0 <==> -1.0 < c.x - px < 1.0 && -1.0 < c.y - py < 1.0)
    ensures c.Undefined? ==> d == nanDist
  {
    match c
    case At(x, y) => IntAbs(Trunc(x - px)) + IntAbs(Trunc(y - py))
    case Undefined => nanDist
  }

  /** The test that sends the traversal into a node's children. */
  predicate Opens(t: Node, d: int, theta: real): (b: bool)
    requires d != 0
    ensures b ==> t.kind.Sub?
    ensures t.kind.Sub? && d > 0 ==> (b <==> t.bounds.w as real > theta * d as real)
  {
    (t.bounds.w as real) / (d as real) > theta && t.kind.Sub?
  }

  /**
   * The nodes a particle at (px, py) takes a kick from, in the order the
   * traversal reaches them.
   */
  function Interactions(t: Node, px: real, py: real, theta: real, nanDist: int): (ns: seq<Node>)
    ensures |ns| <= Visits(t, px, py, theta, nanDist)
    decreases t, 1
  {
    var d := Dist(t.com, px, py, nanDist);
    if d == 0 then []
    else if Opens(t, d, theta) then InteractionsIn(t.kind.branch, px, py, theta, nanDist)
    else [t]
  }

  function InteractionsIn(ts: seq<Node>, px: real, py: real, theta: real, nanDist: int): (ns: seq<Node>)
    ensures |ns| <= VisitsIn(ts, px, py, theta, nanDist)
    decreases ts, 0
  {
    if ts == [] then []
    else InteractionsIn(ts[..|ts| - 1], px, py, theta, nanDist) + Interactions(ts[|ts| - 1], px, py, theta, nanDist)
  }

  /** How many calls of `updateParticle` the traversal makes, this one included. */
  function Visits(t: Node, px: real, py: real, theta: real, nanDist: int): (n: nat)
    ensures n >= 1
    decreases t, 1
  {
    var d := Dist(t.com, px, py, nanDist);
    if d != 0 && Opens(t, d, theta) then 1 + VisitsIn(t.kind.branch, px, py, theta, nanDist) else 1
  }

  function VisitsIn(ts: seq<Node>, px: real, py: real, theta: real, nanDist: int): (n: nat)
    ensures n >= |ts|
    decreases ts, 0
  {
    if ts == [] then 0
    else VisitsIn(ts[..|ts| - 1], px, py, theta, nanDist) + Visits(ts[|ts| - 1], px, py, theta, nanDist)
  }

  /** Sum of the kicks from a list of nodes on a particle at (px, py). */
  function Pull(ns: seq<Node>, px: real, py: real, kick: Kick): (v: (real, real))
    ensures |ns| == 1 ==> v == kick(ns[0].mass, ns[0].com, px, py)
  {
    if ns == [] then (0.0, 0.0)
    else
      var (ax, ay) := Pull(ns[..|ns| - 1], px, py, kick);
      var n := ns[|ns| - 1];
      var (dx, dy) := kick(n.mass, n.com, px, py);
      (ax + dx, ay + dy)
  }

  /** A particle after the kicks of a list of nodes: only its velocity changes. */
  function Kicked(p: Particle, ns: seq<Node>, kick: Kick): (k: Particle)
    ensures k.px == p.px && k.py == p.py && k.mass == p.mass
  {
    var (ax, ay) := Pull(ns, p.px, p.py, kick);
    p.(vx := p.vx + ax, vy := p.vy + ay)
  }

  /** The rectangles `drawTreeNoRecurse` draws for a list of nodes. */
  function Outlines(ns: seq<Node>): (rs: seq<Rect>)
    ensures |rs| == |ns| && forall j :: 0 <= j < |ns| ==> rs[j] == ns[j].bounds
  {
    if ns == [] then [] else Outlines(ns[..|ns| - 1]) + [ns[|ns| - 1].bounds]
  }

  /**
   * `updateParticle` on element `i` of the particle array. Its velocity
   * receives the kicks of exactly the nodes `Interactions` lists, nothing
   * else in the array changes, and with `dispTree` set the rectangles drawn
   * are those nodes' bounds. The ghost result counts the calls made, this
   * one included.
   */
  method UpdateParticle(ps: array<Particle>, i: nat, t: Node, theta: real, nanDist: int, kick: Kick, dispTree: bool)
    returns (drawn: seq<Rect>, ghost calls: nat)
    requires i < ps.Length && WellShaped(t)
    modifies ps
    ensures ps[i] == Kicked(old(ps[i]), Interactions(t, old(ps[i]).px, old(ps[i]).py, theta, nanDist), kick)
    ensures forall j :: 0 <= j < ps.Length && j != i ==> ps[j] == old(ps[j])
    ensures drawn == if dispTree then Outlines(Interactions(t, old(ps[i]).px, old(ps[i]).py, theta, nanDist)) else []
    ensures calls == Visits(t, old(ps[i]).px, old(ps[i]).py, theta, nanDist)
    decreases t, 1
  {
    var p := ps[i];
    var d := Dist(t.com, p.px, p.py, nanDist);
    if d == 0 {
      drawn, calls := [], 1;
    } else if Opens(t, d, theta) {
      ghost var below;
      drawn, below := UpdateFromChildren(ps, i, t.kind.branch, theta, nanDist, kick, dispTree);
      calls := 1 + below;
    } else {
      ps[i] := Kicked(p, [t], kick);
      drawn, calls := if dispTree then [t.bounds] else [], 1;
    }
  }

  /**
   * The loop of `updateParticle` over the four children of an opened node:
   * the particle takes the kicks of each child's traversal in turn.
   */
  method UpdateFromChildren(ps: array<Particle>, i: nat, branch: seq<Node>, theta: real, nanDist: int, kick: Kick, dispTree: bool)
    returns (drawn: seq<Rect>, ghost calls: nat)
    requires i < ps.Length && |branch| == 4 && forall q :: 0 <= q < 4 ==> WellShaped(branch[q])
    modifies ps
    ensures ps[i] == Kicked(old(ps[i]), InteractionsIn(branch, old(ps[i]).px, old(ps[i]).py, theta, nanDist), kick)
    ensures forall j :: 0 <= j < ps.Length && j != i ==> ps[j] == old(ps[j])
    ensures drawn == if dispTree then Outlines(InteractionsIn(branch, old(ps[i]).px, old(ps[i]).py, theta, nanDist)) else []
    ensures calls == VisitsIn(branch, old(ps[i]).px, old(ps[i]).py, theta, nanDist)
    decreases branch, 0
  {
    var p := ps[i];
    drawn, calls := [], 0;
    for q := 0 to 4
      invariant ps[i] == Kicked(p, InteractionsIn(branch[..q], p.px, p.py, theta, nanDist), kick)
      invariant forall j :: 0 <= j < ps.Length && j != i ==> ps[j] == old(ps[j])
      invariant drawn == if dispTree then Outlines(InteractionsIn(branch[..q], p.px, p.py, theta, nanDist)) else []
      invariant calls == VisitsIn(branch[..q], p.px, p.py, theta, nanDist)
    {
      var more;
      ghost var below;
      more, below := UpdateParticle(ps, i, branch[q], theta, nanDist, kick, dispTree);
      NextChild(p, branch, q, theta, nanDist, kick);
      drawn := drawn + more;
      calls := calls + below;
    }
    assert branch[..4] == branch;
  }

  /** What one more child adds to the kicks, the outlines and the calls of a traversal. */
  lemma NextChild(p: Particle, branch: seq<Node>, q: nat, theta: real, nanDist: int, kick: Kick)
    requires q < |branch|
    ensures
      var before := InteractionsIn(branch[..q], p.px, p.py, theta, nanDist);
      var here := Interactions(branch[q], p.px, p.py, theta, nanDist);
      var after := InteractionsIn(branch[..q + 1], p.px, p.py, theta, nanDist);
      && Kicked(Kicked(p, before, kick), here, kick) == Kicked(p, after, kick)
      && Outlines(before) + Outlines(here) == Outlines(after)
      && VisitsIn(branch[..q + 1], p.px, p.py, theta, nanDist)
         == VisitsIn(branch[..q], p.px, p.py, theta, nanDist) + Visits(branch[q], p.px, p.py, theta, nanDist)
  {
    assert branch[..q + 1][..q] == branch[..q];
    var before := InteractionsIn(branch[..q], p.px, p.py, theta, nanDist);
    var here := Interactions(branch[q], p.px, p.py, theta, nanDist);
    KickedTwice(p, before, here, kick);
    OutlinesConcat(before, here);
  }

  /* ---------------------------------------------------------------------- */
  /* Lemmas                                                                  */
  /* ---------------------------------------------------------------------- */

  /** The kicks of two lists of nodes, one after the other, are the kicks of
      the concatenated list. */
  lemma {:induction false} PullConcat(a: seq<Node>, b: seq<Node>, px: real, py: real, kick: Kick)
    ensures Pull(a + b, px, py, kick).0 == Pull(a, px, py, kick).0 + Pull(b, px, py, kick).0
    ensures Pull(a + b, px, py, kick).1 == Pull(a, px, py, kick).1 + Pull(b, px, py, kick).1
    decreases |b|
  {
    if b != [] {
      var n := |b| - 1;
      assert (a + b)[..|a + b| - 1] == a + b[..n];
      PullConcat(a, b[..n], px, py, kick);
    } else {
      assert a + b == a;
    }
  }

  lemma KickedTwice(p: Particle, a: seq<Node>, b: seq<Node>, kick: Kick)
    ensures Kicked(Kicked(p, a, kick), b, kick) == Kicked(p, a + b, kick)
  {
    PullConcat(a, b, p.px, p.py, kick);
  }

  lemma OutlinesConcat(a: seq<Node>, b: seq<Node>)
    ensures Outlines(a + b) == Outlines(a) + Outlines(b)
  {
  }

  /**
   * A particle that is the only one in a leaf, with non-zero mass, takes no
   * kick from that leaf: the leaf's centre is the particle's own position.
   */
  lemma NoSelfKick(ps: seq<Particle>, buf: seq<nat>, r: Rect, k: nat, theta: real, nanDist: int)
    requires Refs(ps, buf) && k < |ps|
    requires Build(ps, buf, r).kind == Leaf(k) && ps[k].mass != 0.0
    ensures Interactions(Build(ps, buf, r), ps[k].px, ps[k].py, theta, nanDist) == []
  {
    LeafAggregates(ps, buf, r);
  }

  /**
   * A particle within 1 unit along both axes of a node's centre of mass
   * skips the whole node, internal or not, in one visit.
   */
  lemma NearCentreSkipped(t: Node, px: real, py: real, theta: real, nanDist: int)
    requires t.com.At? && -1.0 < t.com.x - px < 1.0 && -1.0 < t.com.y - py < 1.0
    ensures Interactions(t, px, py, theta, nanDist) == []
    ensures Visits(t, px, py, theta, nanDist) == 1
  {
  }

  /**
   * Every node a particle takes a kick from passed the distance test and
   * failed the opening test: its distance is not 0, and it is not internal
   * or width / distance does not exceed theta.
   */
  lemma {:induction false} KicksComeFromUnopened(t: Node, px: real, py: real, theta: real, nanDist: int)
    ensures forall j :: 0 <= j < |Interactions(t, px, py, theta, nanDist)| ==>
      var n := Interactions(t, px, py, theta, nanDist)[j];
      Dist(n.com, px, py, nanDist) != 0 && !Opens(n, Dist(n.com, px, py, nanDist), theta)
    decreases t, 1
  {
    var d := Dist(t.com, px, py, nanDist);
    if d != 0 && Opens(t, d, theta) {
      KicksInComeFromUnopened(t.kind.branch, px, py, theta, nanDist);
    }
  }

  lemma {:induction false} KicksInComeFromUnopened(ts: seq<Node>, px: real, py: real, theta: real, nanDist: int)
    ensures forall j :: 0 <= j < |InteractionsIn(ts, px, py, theta, nanDist)| ==>
      var n := InteractionsIn(ts, px, py, theta, nanDist)[j];
      Dist(n.com, px, py, nanDist) != 0 && !Opens(n, Dist(n.com, px, py, nanDist), theta)
    decreases ts, 0
  {
    if ts != [] {
      KicksInComeFromUnopened(ts[..|ts| - 1], px, py, theta, nanDist);
      KicksComeFromUnopened(ts[|ts| - 1], px, py, theta, nanDist);
    }
  }

  /**
   * A larger opening threshold never makes the traversal visit more nodes:
   * whatever node is opened under theta2 is opened under theta1 <= theta2.
   */
  lemma {:induction false} VisitsMonotone(t: Node, px: real, py: real, theta1: real, theta2: real, nanDist: int)
    requires theta1 <= theta2
    ensures Visits(t, px, py, theta2, nanDist) <= Visits(t, px, py, theta1, nanDist)
    decreases t, 1
  {
    var d := Dist(t.com, px, py, nanDist);
    if d != 0 && Opens(t, d, theta2) {
      VisitsInMonotone(t.kind.branch, px, py, theta1, theta2, nanDist);
    }
  }

  lemma {:induction false} VisitsInMonotone(ts: seq<Node>, px: real, py: real, theta1: real, theta2: real, nanDist: int)
    requires theta1 <= theta2
    ensures VisitsIn(ts, px, py, theta2, nanDist) <= VisitsIn(ts, px, py, theta1, nanDist)
    decreases ts, 0
  {
    if ts != [] {
      VisitsInMonotone(ts[..|ts| - 1], px, py, theta1, theta2, nanDist);
      VisitsMonotone(ts[|ts| - 1], px, py, theta1, theta2, nanDist);
    }
  }

  /** No internal node among a list of nodes. */
  predicate NoInternal(ns: seq<Node>)
  {
    forall j :: 0 <= j < |ns| ==> !ns[j].kind.Sub?
  }

  /**
   * The traversal with every internal node opened, whatever theta: a node
   * whose centre is within distance 0 of the particle is still skipped, with
   * everything below it.
   */
  function Frontier(t: Node, px: real, py: real, nanDist: int): (ns: seq<Node>)
    decreases t, 1
  {
    var d := Dist(t.com, px, py, nanDist);
    if d == 0 then []
    else if t.kind.Sub? then FrontierIn(t.kind.branch, px, py, nanDist)
    else [t]
  }

  function FrontierIn(ts: seq<Node>, px: real, py: real, nanDist: int): (ns: seq<Node>)
    decreases ts, 0
  {
    if ts == [] then []
    else FrontierIn(ts[..|ts| - 1], px, py, nanDist) + Frontier(ts[|ts| - 1], px, py, nanDist)
  }

  /**
   * With theta <= 0 every internal node that is not skipped is opened: the
   * traversal is `Frontier`, and the kicks come from leaves and empty nodes
   * only. This needs the undefined distance to be non-negative. It is not
   * direct summation: a subtree whose centre lies within distance 0 of the
   * particle contributes nothing (see `CentreParticleSkipsAll`).
   */
  lemma {:induction false} ExactWhenThetaNonPositive(t: Node, px: real, py: real, theta: real, nanDist: int)
    requires WellShaped(t) && theta <= 0.0 && nanDist >= 0
    ensures Interactions(t, px, py, theta, nanDist) == Frontier(t, px, py, nanDist)
    ensures NoInternal(Interactions(t, px, py, theta, nanDist))
    decreases t, 1
  {
    var d := Dist(t.com, px, py, nanDist);
    if d != 0 && t.kind.Sub? {
      assert d > 0 && t.bounds.w >= 1;
      assert Opens(t, d, theta);
      var b := t.kind.branch;
      forall j | 0 <= j < |b| ensures WellShaped(b[j]) {
        assert b[j] == b[j as nat];
      }
      ExactInWhenThetaNonPositive(b, px, py, theta, nanDist);
    }
  }

  lemma {:induction false} ExactInWhenThetaNonPositive(ts: seq<Node>, px: real, py: real, theta: real, nanDist: int)
    requires forall j :: 0 <= j < |ts| ==> WellShaped(ts[j])
    requires theta <= 0.0 && nanDist >= 0
    ensures InteractionsIn(ts, px, py, theta, nanDist) == FrontierIn(ts, px, py, nanDist)
    ensures NoInternal(InteractionsIn(ts, px, py, theta, nanDist))
    decreases ts, 0
  {
    if ts != [] {
      ExactInWhenThetaNonPositive(ts[..|ts| - 1], px, py, theta, nanDist);
      ExactWhenThetaNonPositive(ts[|ts| - 1], px, py, theta, nanDist);
    }
  }

  /** Three unit masses on a row; the middle one sits on their centre of mass. */
  function CentredRow(): seq<Particle>
  {
    [Particle(0.5, 0.5, 0.0, 0.0, 1.0), Particle(2.5, 0.5, 0.0, 0.0, 1.0), Particle(1.5, 0.5, 0.0, 0.0, 1.0)]
  }

  lemma CentredRowInside()
    ensures Filter(CentredRow(), [0, 1, 2], Rect(0, 0, 4, 4)) == [0, 1, 2]
  {
    var buf: seq<nat> := [0, 1, 2];
    assert buf[..2] == [0, 1] && buf[..2][..1] == [0];
  }

  lemma CentredRowSums()
    ensures MassSum(CentredRow(), [0, 1, 2]) == 3.0
    ensures Moment(CentredRow(), [0, 1, 2], X) == 4.5
    ensures Moment(CentredRow(), [0, 1, 2], Y) == 1.5
  {
    var ps := CentredRow();
    var one, two: seq<nat> := [0], [0, 1];
    assert one == [] + [0] && two == one + [1] && [0, 1, 2] == two + [2];
    MassStep(ps, [], 0);
    MassStep(ps, one, 1);
    MassStep(ps, two, 2);
    MomentStep(ps, [], 0, X);
    MomentStep(ps, one, 1, X);
    MomentStep(ps, two, 2, X);
    MomentStep(ps, [], 0, Y);
    MomentStep(ps, one, 1, Y);
    MomentStep(ps, two, 2, Y);
  }

  /**
   * A particle on the centre of mass of the whole tree takes no kick at all,
   * for every theta, though two other particles of mass 1 are in the tree.
   */
  lemma CentreParticleSkipsAll(theta: real, nanDist: int)
    ensures var t := Build(CentredRow(), [0, 1, 2], Rect(0, 0, 4, 4));
      && t.kind.Sub? && t.mass == 3.0
      && Interactions(t, 1.5, 0.5, theta, nanDist) == []
  {
    CentredRowInside();
    CentredRowSums();
    var t := Build(CentredRow(), [0, 1, 2], Rect(0, 0, 4, 4));
    assert t.com == At(1.5, 0.5);
    assert Dist(t.com, 1.5, 0.5, nanDist) == 0;
  }
}
