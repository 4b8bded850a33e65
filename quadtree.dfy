/**
 * The Barnes-Hut quadtree built by `genTree`: a node keeps the particles of
 * its buffer that lie in its rectangle, sums their mass and mass-weighted
 * position, and is then an internal node with four quadrant children (more
 * than one particle), a leaf (exactly one) or neither (none).
 *
 * Particles are referred to by their index in a snapshot of the particle
 * array, as the C code refers to them by pointer; a buffer is a sequence of
 * such indices.
 */
module QuadTree {
  import opened Geometry

  /** A particle_t: position, velocity and mass. */
  datatype Particle = Particle(px: real, py: real, vx: real, vy: real, mass: real)

  /** The two coordinate axes, so that x and y sums are one definition. */
  datatype Axis = X | Y

  function Pos(p: Particle, a: Axis): real
  {
    match a
    case X => p.px
    case Y => p.py
  }

  /** A particle's contribution to the moment along `a`: coordinate times mass. */
  function Weight(p: Particle, a: Axis): real
  {
    Pos(p, a) * p.mass
  }

  /**
   * A node's centre of mass (mX, mY). When the node's mass is 0 the C code
   * divides by zero and the centre is not a number; it is Undefined here.
   */
  datatype Centre = At(x: real, y: real) | Undefined

  /** The `sub` / `leaf` flags, with the children or the particle they enable. */
  datatype Kind = Neither | Leaf(particle: nat) | Sub(branch: seq<Node>)

  /** A qtree_t node. */
  datatype Node = Node(bounds: Rect, mass: real, com: Centre, kind: Kind)

  /** Every entry of a buffer points into the particle array. */
  predicate Refs(ps: seq<Particle>, ids: seq<nat>)
  {
    forall i :: 0 <= i < |ids| ==> ids[i] < |ps|
  }

  /**
   * The `In` buffer: the entries of `buf` that pass `boundsCheck` for `r`, in
   * buffer order. Each entry is kept as often as it occurs in `buf` when it
   * lies in `r`, and not at all otherwise.
   */
  function Filter(ps: seq<Particle>, buf: seq<nat>, r: Rect): (inside: seq<nat>)
    requires Refs(ps, buf)
    ensures Refs(ps, inside)
    ensures |inside| <= |buf|
    ensures forall i :: 0 <= i < |inside| ==> InRect(r, ps[inside[i]].px, ps[inside[i]].py)
  {
    if buf == [] then []
    else
      var init, last := buf[..|buf| - 1], buf[|buf| - 1];
      assert buf == init + [last];
      var rest := Filter(ps, init, r);
      if InRect(r, ps[last].px, ps[last].py) then rest + [last] else rest
  }

  /** Sum of the masses of the particles an index sequence names. */
  function MassSum(ps: seq<Particle>, ids: seq<nat>): (m: real)
    requires Refs(ps, ids)
  {
    if ids == [] then 0.0
    else MassSum(ps, ids[..|ids| - 1]) + ps[ids[|ids| - 1]].mass
  }

  /** Sum of mass times coordinate along `a` over the particles named. */
  function Moment(ps: seq<Particle>, ids: seq<nat>, a: Axis): (m: real)
    requires Refs(ps, ids)
  {
    if ids == [] then 0.0
    else Moment(ps, ids[..|ids| - 1], a) + Weight(ps[ids[|ids| - 1]], a)
  }

  /** `mX /= mass; mY /= mass`, undefined when the mass is 0. */
  function CentreOf(mass: real, mx: real, my: real): (c: Centre)
    ensures c.At? <==> mass != 0.0
  {
    if mass != 0.0 then At(mx / mass, my / mass) else Undefined
  }

  /**
   * The tree `genTree` builds for `buf` in `r` (the specification of
   * GenTree). The recursion stops because a node with two or more particles
   * has a width of at least 1 and its children have half that width.
   */
  function Build(ps: seq<Particle>, buf: seq<nat>, r: Rect): (t: Node)
    requires Refs(ps, buf)
    ensures t.bounds == r
    ensures t.kind.Sub? ==> r.w >= 1 && r.h >= 1 && |t.kind.branch| == 4
    ensures t.kind.Neither? ==> t.mass == 0.0 && t.com == Undefined
    decreases r.w, 1
  {
    var inside := Filter(ps, buf, r);
    var mass := MassSum(ps, inside);
    var com := CentreOf(mass, Moment(ps, inside, X), Moment(ps, inside, Y));
    if |inside| > 1 then
      Node(r, mass, com, Sub(Children(ps, inside, r)))
    else if |inside| == 1 then
      Node(r, mass, com, Leaf(inside[0]))
    else
      Node(r, mass, com, Neither)
  }

  /** The four children of an internal node, one per quadrant, each built from `In`. */
  function Children(ps: seq<Particle>, inside: seq<nat>, r: Rect): (b: seq<Node>)
    requires Refs(ps, inside) && r.w >= 1
    ensures |b| == 4 && forall q: nat :: q < 4 ==> b[q].bounds == Quadrant(r, q)
    decreases r.w, 0
  {
    [Build(ps, inside, Quadrant(r, 0)), Build(ps, inside, Quadrant(r, 1)),
     Build(ps, inside, Quadrant(r, 2)), Build(ps, inside, Quadrant(r, 3))]
  }

  /**
   * The first half of `genTree`: one pass over the buffer copies the entries
   * inside `bounds` into `In`, in order, and accumulates their mass and their
   * mass-weighted coordinates.
   */
  method Gather(ps: seq<Particle>, buffer: seq<nat>, bounds: Rect)
    returns (inside: seq<nat>, mass: real, mx: real, my: real)
    requires Refs(ps, buffer)
    ensures inside == Filter(ps, buffer, bounds)
    ensures mass == MassSum(ps, inside)
    ensures mx == Moment(ps, inside, X) && my == Moment(ps, inside, Y)
  {
    inside := [];
    mass, mx, my := 0.0, 0.0, 0.0;
    for i := 0 to |buffer|
      invariant inside == Filter(ps, buffer[..i], bounds)
      invariant Sums(ps, inside, mass, mx, my)
    {
      FilterStep(ps, buffer, i, bounds);
      var k := buffer[i];
      var p := ps[k];
      if InRect(bounds, p.px, p.py) {
        ghost var before := (mass, mx, my);
        mass := mass + p.mass;
        mx := mx + p.px * p.mass;
        my := my + p.py * p.mass;
        Accumulate(ps, inside, k, before.0, before.1, before.2, mass, mx, my);
        inside := inside + [k];
      }
    }
    assert buffer[..|buffer|] == buffer;
  }

  /**
   * `genTree`: gathers the node's particles and aggregates, divides the
   * moments by the mass, and classifies the node; a node with more than one
   * particle gets four quadrant children, each built from `In`.
   */
  method GenTree(ps: seq<Particle>, buffer: seq<nat>, bounds: Rect) returns (t: Node)
    requires Refs(ps, buffer)
    ensures t == Build(ps, buffer, bounds)
    decreases bounds.w
  {
    var inside, mass, mx, my := Gather(ps, buffer, bounds);
    var com := CentreOf(mass, mx, my);
    if |inside| > 1 {
      assert InRect(bounds, ps[inside[0]].px, ps[inside[0]].py);
      ghost var children := Children(ps, inside, bounds);
      var branch: seq<Node> := [];
      for q := 0 to 4
        invariant branch == children[..q]
      {
        var child := GenTree(ps, inside, Quadrant(bounds, q));
        assert children[..q + 1] == children[..q] + [child];
        branch := branch + [child];
      }
      assert branch == children;
      t := Node(bounds, mass, com, Sub(branch));
    } else if |inside| == 1 {
      t := Node(bounds, mass, com, Leaf(inside[0]));
    } else {
      t := Node(bounds, mass, com, Neither);
    }
  }

  /** One more buffer entry extends `In` by that entry exactly when it is inside. */
  lemma FilterStep(ps: seq<Particle>, buf: seq<nat>, i: nat, r: Rect)
    requires Refs(ps, buf) && i < |buf|
    ensures Filter(ps, buf[..i + 1], r) ==
      Filter(ps, buf[..i], r) + if InRect(r, ps[buf[i]].px, ps[buf[i]].py) then [buf[i]] else []
  {
    assert buf[..i + 1][..i] == buf[..i];
  }

  /** `mass`, `mx` and `my` are the mass and the moments of the particles `ids` names. */
  predicate Sums(ps: seq<Particle>, ids: seq<nat>, mass: real, mx: real, my: real)
    requires Refs(ps, ids)
  {
    mass == MassSum(ps, ids) && mx == Moment(ps, ids, X) && my == Moment(ps, ids, Y)
  }

  /** The sums after `In` gains entry `k`: the loop body's updates. */
  lemma Accumulate(ps: seq<Particle>, inside: seq<nat>, k: nat, mass: real, mx: real, my: real, mass': real, mx': real, my': real)
    requires Refs(ps, inside) && k < |ps|
    requires Sums(ps, inside, mass, mx, my)
    requires mass' == mass + ps[k].mass && mx' == mx + ps[k].px * ps[k].mass && my' == my + ps[k].py * ps[k].mass
    ensures Sums(ps, inside + [k], mass', mx', my')
  {
    MassStep(ps, inside, k);
    MomentStep(ps, inside, k, X);
    MomentStep(ps, inside, k, Y);
  }

  /** Appending a particle adds its mass to the mass sum. */
  lemma MassStep(ps: seq<Particle>, ids: seq<nat>, k: nat)
    requires Refs(ps, ids) && k < |ps|
    ensures MassSum(ps, ids + [k]) == MassSum(ps, ids) + ps[k].mass
  {
    assert (ids + [k])[..|ids|] == ids;
  }

  /** The particles held by the leaves of a tree, in tree order. */
  function Held(t: Node): seq<nat>
    decreases t, 1
  {
    match t.kind
    case Neither => []
    case Leaf(k) => [k]
    case Sub(b) => HeldIn(b)
  }

  function HeldIn(ts: seq<Node>): seq<nat>
    decreases ts, 0
  {
    if ts == [] then [] else HeldIn(ts[..|ts| - 1]) + Held(ts[|ts| - 1])
  }

  predicate Distinct(s: seq<nat>)
  {
    forall i, j :: 0 <= i < j < |s| ==> s[i] != s[j]
  }

  /**
   * The shape every built tree has: a neither-node has mass 0 and no centre;
   * an internal node is at least 1 by 1 and has four children whose bounds
   * are its quadrants, in order.
   */
  ghost predicate WellShaped(t: Node)
    decreases t
  {
    match t.kind
    case Neither => t.mass == 0.0 && t.com == Undefined
    case Leaf(_) => true
    case Sub(b) =>
      && |b| == 4 && t.bounds.w >= 1 && t.bounds.h >= 1
      && forall q: nat | q < 4 :: b[q].bounds == Quadrant(t.bounds, q) && WellShaped(b[q])
  }

  /** Every particle a subtree holds lies in that subtree's bounds, at every level. */
  ghost predicate HeldInside(t: Node, ps: seq<Particle>)
    decreases t
  {
    && (forall k :: k in Held(t) ==> k < |ps| && InRect(t.bounds, ps[k].px, ps[k].py))
    && (t.kind.Sub? ==> forall j :: 0 <= j < |t.kind.branch| ==> HeldInside(t.kind.branch[j], ps))
  }

  /* ---------------------------------------------------------------------- */
  /* Lemmas about the buffer and the sums                                    */
  /* ---------------------------------------------------------------------- */

  /**
   * The `In` buffer keeps an entry as often as it occurs in the buffer when
   * it lies in the node, and not at all otherwise.
   */
  lemma {:induction false} FilterCount(ps: seq<Particle>, buf: seq<nat>, r: Rect, k: nat)
    requires Refs(ps, buf)
    ensures multiset(Filter(ps, buf, r))[k] ==
      if k < |ps| && InRect(r, ps[k].px, ps[k].py) then multiset(buf)[k] else 0
  {
    if buf != [] {
      var init, last := buf[..|buf| - 1], buf[|buf| - 1];
      assert buf == init + [last];
      FilterCount(ps, init, r, k);
    }
  }

  /** A particle of `buf` inside `r` is in the `In` buffer, and only those are. */
  lemma FilterMember(ps: seq<Particle>, buf: seq<nat>, r: Rect, k: nat)
    requires Refs(ps, buf)
    ensures k in Filter(ps, buf, r) <==> k in buf && InRect(r, ps[k].px, ps[k].py)
  {
    var inside := Filter(ps, buf, r);
    FilterCount(ps, buf, r, k);
    var mi: multiset<nat>, mb: multiset<nat> := multiset(inside), multiset(buf);
    assert k in inside <==> mi[k] > 0;
    assert k in buf <==> mb[k] > 0;
  }

  /** Classification of a node by the number of particles it contains. */
  lemma Classification(ps: seq<Particle>, buf: seq<nat>, r: Rect)
    requires Refs(ps, buf)
    ensures var t, inside := Build(ps, buf, r), Filter(ps, buf, r);
      && t.bounds == r
      && (t.kind.Sub? <==> |inside| > 1)
      && (t.kind.Leaf? <==> |inside| == 1)
      && (t.kind.Leaf? ==> t.kind.particle == inside[0])
      && (t.kind.Neither? <==> inside == [])
      && (t.kind.Neither? ==> t.mass == 0.0 && t.com == Undefined)
  {
  }

  /** Node mass is the total mass of exactly the buffer entries inside it. */
  lemma {:induction false} MassIsContainedMass(ps: seq<Particle>, buf: seq<nat>, r: Rect)
    requires Refs(ps, buf)
    ensures Build(ps, buf, r).mass == MassSum(ps, Filter(ps, buf, r))
    ensures Build(ps, buf, r).mass == MaskedMass(ps, buf, r)
  {
    FilterMass(ps, buf, r);
  }

  /** With positive masses, a mass sum is positive exactly when something is summed. */
  lemma {:induction false} MassSumPositive(ps: seq<Particle>, ids: seq<nat>)
    requires Refs(ps, ids)
    requires forall k :: k in ids ==> ps[k].mass > 0.0
    ensures MassSum(ps, ids) > 0.0 <==> ids != []
  {
    if ids != [] {
      var init := ids[..|ids| - 1];
      assert forall k :: k in init ==> k in ids;
      MassSumPositive(ps, init);
    }
  }

  /** Reference definition: the mass of every buffer entry that lies in `r`. */
  function MaskedMass(ps: seq<Particle>, buf: seq<nat>, r: Rect): real
    requires Refs(ps, buf)
  {
    if buf == [] then 0.0
    else
      var last := buf[|buf| - 1];
      MaskedMass(ps, buf[..|buf| - 1], r) + (if InRect(r, ps[last].px, ps[last].py) then ps[last].mass else 0.0)
  }

  lemma {:induction false} FilterMass(ps: seq<Particle>, buf: seq<nat>, r: Rect)
    requires Refs(ps, buf)
    ensures MassSum(ps, Filter(ps, buf, r)) == MaskedMass(ps, buf, r)
  {
    if buf != [] {
      var init, last := buf[..|buf| - 1], buf[|buf| - 1];
      FilterMass(ps, init, r);
      var rest := Filter(ps, init, r);
      if InRect(r, ps[last].px, ps[last].py) {
        assert Filter(ps, buf, r) == rest + [last];
        MassStep(ps, rest, last);
      } else {
        assert Filter(ps, buf, r) == rest;
      }
    }
  }

  /** Reference definition: position times mass along `a`, summed over every
      buffer entry that lies in `r`. */
  function MaskedMoment(ps: seq<Particle>, buf: seq<nat>, r: Rect, a: Axis): real
    requires Refs(ps, buf)
  {
    if buf == [] then 0.0
    else
      var last := buf[|buf| - 1];
      MaskedMoment(ps, buf[..|buf| - 1], r, a) +
        (if InRect(r, ps[last].px, ps[last].py) then Weight(ps[last], a) else 0.0)
  }

  lemma {:induction false} FilterMoment(ps: seq<Particle>, buf: seq<nat>, r: Rect, a: Axis)
    requires Refs(ps, buf)
    ensures Moment(ps, Filter(ps, buf, r), a) == MaskedMoment(ps, buf, r, a)
  {
    if buf != [] {
      var init, last := buf[..|buf| - 1], buf[|buf| - 1];
      var rest := Filter(ps, init, r);
      FilterMoment(ps, init, r, a);
      if InRect(r, ps[last].px, ps[last].py) {
        assert Filter(ps, buf, r) == rest + [last];
        MomentStep(ps, rest, last, a);
      } else {
        assert Filter(ps, buf, r) == rest;
      }
    }
  }

  /** Appending a particle adds its weighted coordinate to the moment. */
  lemma MomentStep(ps: seq<Particle>, ids: seq<nat>, k: nat, a: Axis)
    requires Refs(ps, ids) && k < |ps|
    ensures Moment(ps, ids + [k], a) == Moment(ps, ids, a) + Weight(ps[k], a)
  {
    assert (ids + [k])[..|ids|] == ids;
  }

  /** `c` is the mass-weighted mean of particles of total mass `mass` and
      moments `mx`, `my`: mass times each coordinate gives back the moment. */
  predicate IsMean(c: Centre, mass: real, mx: real, my: real)
  {
    c.At? && c.x * mass == mx && c.y * mass == my
  }

  /**
   * When a node's mass is not 0 its centre is the mass-weighted mean of the
   * positions of exactly the buffer entries inside it, stated against the
   * masked sums rather than `In`.
   */
  lemma CentreIsMaskedMean(ps: seq<Particle>, buf: seq<nat>, r: Rect)
    requires Refs(ps, buf)
    requires MaskedMass(ps, buf, r) != 0.0
    ensures Build(ps, buf, r).mass == MaskedMass(ps, buf, r)
    ensures IsMean(Build(ps, buf, r).com, MaskedMass(ps, buf, r), MaskedMoment(ps, buf, r, X), MaskedMoment(ps, buf, r, Y))
  {
    var inside := Filter(ps, buf, r);
    FilterMass(ps, buf, r);
    FilterMoment(ps, buf, r, X);
    FilterMoment(ps, buf, r, Y);
    CentreIsMean(MassSum(ps, inside), Moment(ps, inside, X), Moment(ps, inside, Y));
  }

  /** A leaf's mass is its particle's mass and its centre is that particle's position. */
  lemma LeafAggregates(ps: seq<Particle>, buf: seq<nat>, r: Rect)
    requires Refs(ps, buf)
    requires Build(ps, buf, r).kind.Leaf?
    ensures var t := Build(ps, buf, r); var p := ps[t.kind.particle];
      && t.mass == p.mass
      && (p.mass != 0.0 ==> t.com == At(p.px, p.py))
  {
    var inside := Filter(ps, buf, r);
    assert inside == [inside[0]];
    assert inside[..0] == [];
    var p := ps[inside[0]];
    assert MassSum(ps, inside) == p.mass;
    assert Moment(ps, inside, X) == p.px * p.mass;
    assert Moment(ps, inside, Y) == p.py * p.mass;
    if p.mass != 0.0 {
      assert (p.px * p.mass) / p.mass == p.px;
      assert (p.py * p.mass) / p.mass == p.py;
    }
  }

  /** `In` keeps buffer order: filtering a concatenation filters each part. */
  lemma {:induction false} FilterConcat(ps: seq<Particle>, a: seq<nat>, b: seq<nat>, r: Rect)
    requires Refs(ps, a) && Refs(ps, b)
    ensures Refs(ps, a + b)
    ensures Filter(ps, a + b, r) == Filter(ps, a, r) + Filter(ps, b, r)
    decreases |b|
  {
    if b == [] {
      assert a + b == a;
    } else {
      var n := |b| - 1;
      assert (a + b)[..|a + b| - 1] == a + b[..n];
      FilterConcat(ps, a, b[..n], r);
    }
  }

  /**
   * A defined centre is the mass-weighted mean: mass times each coordinate
   * gives back the moment. With `BuildAggregates` this is the centre of every
   * built node of non-zero mass.
   */
  lemma CentreIsMean(mass: real, mx: real, my: real)
    requires mass != 0.0
    ensures IsMean(CentreOf(mass, mx, my), mass, mx, my)
  {
  }

  /** A moment `m` of total mass `mass` between lo and hi times the mass. */
  predicate Between(lo: real, hi: real, mass: real, m: real)
  {
    lo * mass <= m < hi * mass
  }

  /** With positive masses the moments lie between lo and hi times the mass. */
  lemma {:induction false} MomentBounds(ps: seq<Particle>, ids: seq<nat>, a: Axis, lo: real, hi: real)
    requires Refs(ps, ids) && ids != []
    requires forall j :: 0 <= j < |ids| ==> ps[ids[j]].mass > 0.0 && lo <= Pos(ps[ids[j]], a) < hi
    ensures MassSum(ps, ids) > 0.0
    ensures Between(lo, hi, MassSum(ps, ids), Moment(ps, ids, a))
  {
    var init, p := ids[..|ids| - 1], ps[ids[|ids| - 1]];
    var m0, mo0 := MassSum(ps, init), Moment(ps, init, a);
    if init != [] {
      MomentBounds(ps, init, a, lo, hi);
    }
    WeightedStep(lo, hi, m0, mo0, Pos(p, a), p.mass, MassSum(ps, ids), Moment(ps, ids, a));
  }

  /** One step of the induction above: adding a particle at x with mass m. */
  lemma WeightedStep(lo: real, hi: real, m0: real, mo0: real, x: real, m: real, mass: real, mo: real)
    requires (m0 == 0.0 && mo0 == 0.0) || (m0 > 0.0 && Between(lo, hi, m0, mo0))
    requires m > 0.0 && lo <= x < hi
    requires mass == m0 + m && mo == mo0 + x * m
    ensures mass > 0.0 && Between(lo, hi, mass, mo)
  {
    assert lo * m <= x * m < hi * m;
    assert lo * mass == lo * m0 + lo * m && hi * mass == hi * m0 + hi * m;
  }

  lemma QuotientBounds(m: real, mass: real, lo: real, hi: real)
    requires mass > 0.0 && lo * mass <= m < hi * mass
    ensures lo <= m / mass < hi
  {
  }

  /** The aggregates of a built node are those of its `In` buffer. */
  lemma BuildAggregates(ps: seq<Particle>, buf: seq<nat>, r: Rect)
    requires Refs(ps, buf)
    ensures var inside := Filter(ps, buf, r);
      && Build(ps, buf, r).mass == MassSum(ps, inside)
      && Build(ps, buf, r).com == CentreOf(MassSum(ps, inside), Moment(ps, inside, X), Moment(ps, inside, Y))
  {
  }

  /**
   * When every particle has a positive mass, a node containing at least one
   * particle has a defined centre of mass, and that centre lies in the node.
   */
  lemma CentreInsideNode(ps: seq<Particle>, buf: seq<nat>, r: Rect)
    requires Refs(ps, buf)
    requires forall k :: k in buf ==> ps[k].mass > 0.0
    requires Filter(ps, buf, r) != []
    ensures Build(ps, buf, r).com.At?
    ensures InRect(r, Build(ps, buf, r).com.x, Build(ps, buf, r).com.y)
  {
    var inside := Filter(ps, buf, r);
    forall j | 0 <= j < |inside| ensures ps[inside[j]].mass > 0.0 && InRect(r, ps[inside[j]].px, ps[inside[j]].py) {
      FilterMember(ps, buf, r, inside[j]);
    }
    CentreOfInside(ps, inside, r);
    BuildAggregates(ps, buf, r);
  }

  /** The mass-weighted mean of particles of positive mass inside `r` is inside `r`. */
  lemma CentreOfInside(ps: seq<Particle>, ids: seq<nat>, r: Rect)
    requires Refs(ps, ids) && ids != []
    requires forall j :: 0 <= j < |ids| ==> ps[ids[j]].mass > 0.0 && InRect(r, ps[ids[j]].px, ps[ids[j]].py)
    ensures var c := CentreOf(MassSum(ps, ids), Moment(ps, ids, X), Moment(ps, ids, Y));
      c.At? && InRect(r, c.x, c.y)
  {
    MomentBounds(ps, ids, X, r.x as real, (r.x + r.w) as real);
    MomentBounds(ps, ids, Y, r.y as real, (r.y + r.h) as real);
    MeanBounds(ps, ids, X, r.x as real, (r.x + r.w) as real);
    MeanBounds(ps, ids, Y, r.y as real, (r.y + r.h) as real);
  }

  /** Moments between lo and hi times a positive mass give a mean between lo and hi. */
  lemma MeanBounds(ps: seq<Particle>, ids: seq<nat>, a: Axis, lo: real, hi: real)
    requires Refs(ps, ids) && MassSum(ps, ids) > 0.0
    requires Between(lo, hi, MassSum(ps, ids), Moment(ps, ids, a))
    ensures lo <= Moment(ps, ids, a) / MassSum(ps, ids) < hi
  {
    QuotientBounds(Moment(ps, ids, a), MassSum(ps, ids), lo, hi);
  }

  /* ---------------------------------------------------------------------- */
  /* Lemmas about the shape of the tree                                      */
  /* ---------------------------------------------------------------------- */

  /**
   * An internal node: recursion needs two particles inside, hence a node at
   * least 1 by 1, and the children are the four quadrants built from `In`.
   */
  lemma BuildSub(ps: seq<Particle>, buf: seq<nat>, r: Rect)
    requires Refs(ps, buf)
    requires |Filter(ps, buf, r)| > 1
    ensures r.w >= 1 && r.h >= 1
    ensures var inside := Filter(ps, buf, r); var b := Build(ps, buf, r).kind;
      && b == Sub(Children(ps, inside, r))
      && |b.branch| == 4
      && forall q: nat :: q < 4 ==> b.branch[q] == Build(ps, inside, Quadrant(r, q))
  {
    var inside := Filter(ps, buf, r);
    assert InRect(r, ps[inside[0]].px, ps[inside[0]].py);
  }

  /** Every node of a built tree is well shaped; in particular recursion only
      happened on nodes at least 1 by 1, and children are the parent's quadrants. */
  lemma {:induction false} BuildWellShaped(ps: seq<Particle>, buf: seq<nat>, r: Rect)
    requires Refs(ps, buf)
    ensures Build(ps, buf, r).bounds == r
    ensures WellShaped(Build(ps, buf, r))
    decreases r.w
  {
    var inside := Filter(ps, buf, r);
    if |inside| > 1 {
      BuildSub(ps, buf, r);
      forall q: nat | q < 4 ensures Build(ps, inside, Quadrant(r, q)).bounds == Quadrant(r, q)
        && WellShaped(Build(ps, inside, Quadrant(r, q)))
      {
        BuildWellShaped(ps, inside, Quadrant(r, q));
      }
    }
  }

  lemma {:induction false} HeldInMember(ts: seq<Node>, k: nat)
    ensures k in HeldIn(ts) <==> exists j :: 0 <= j < |ts| && k in Held(ts[j])
    decreases ts
  {
    if ts != [] {
      var init := ts[..|ts| - 1];
      HeldInMember(init, k);
      if k in HeldIn(ts) && k !in Held(ts[|ts| - 1]) {
        var j :| 0 <= j < |init| && k in Held(init[j]);
        assert init[j] == ts[j];
      }
      if exists j :: 0 <= j < |ts| && k in Held(ts[j]) {
        var j :| 0 <= j < |ts| && k in Held(ts[j]);
        if j < |init| {
          assert init[j] == ts[j];
        }
      }
    }
  }

  /** Children are built from the parent's `In` buffer, so every particle a
      leaf holds is one of the buffer entries inside the node. */
  lemma {:induction false} HeldFromInside(ps: seq<Particle>, buf: seq<nat>, r: Rect, k: nat)
    requires Refs(ps, buf)
    requires k in Held(Build(ps, buf, r))
    ensures k in buf && InRect(r, ps[k].px, ps[k].py)
    decreases r.w
  {
    var inside := Filter(ps, buf, r);
    if |inside| > 1 {
      BuildSub(ps, buf, r);
      var b := Build(ps, buf, r).kind.branch;
      HeldInMember(b, k);
      var q :| 0 <= q < 4 && k in Held(b[q]);
      HeldFromInside(ps, inside, Quadrant(r, q), k);
    } else {
      assert k == inside[0];
    }
    FilterMember(ps, buf, r, k);
  }

  /** A particle held by a leaf lies inside the bounds of every ancestor. */
  lemma {:induction false} HeldInsideAncestors(ps: seq<Particle>, buf: seq<nat>, r: Rect)
    requires Refs(ps, buf)
    ensures HeldInside(Build(ps, buf, r), ps)
    decreases r.w
  {
    var inside := Filter(ps, buf, r);
    var t := Build(ps, buf, r);
    forall k | k in Held(t) ensures k < |ps| && InRect(r, ps[k].px, ps[k].py) {
      HeldFromInside(ps, buf, r, k);
    }
    if |inside| > 1 {
      BuildSub(ps, buf, r);
      forall j | 0 <= j < |t.kind.branch| ensures HeldInside(t.kind.branch[j], ps) {
        HeldInsideAncestors(ps, inside, Quadrant(r, j));
      }
    }
  }

  lemma DistinctConcat(a: seq<nat>, b: seq<nat>)
    requires Distinct(a) && Distinct(b)
    requires forall k :: k in a ==> k !in b
    ensures Distinct(a + b)
  {
    var s := a + b;
    forall i, j | 0 <= i < j < |s| ensures s[i] != s[j] {
      if i < |a| && j >= |a| {
        assert s[i] in a && s[j] == b[j - |a|];
      }
    }
  }

  /** Each particle is held by at most one leaf: the quadrants are disjoint
      and a leaf needs exactly one entry in its node. */
  lemma {:induction false} HeldDistinct(ps: seq<Particle>, buf: seq<nat>, r: Rect)
    requires Refs(ps, buf)
    ensures Distinct(Held(Build(ps, buf, r)))
    decreases r.w
  {
    var inside := Filter(ps, buf, r);
    if |inside| > 1 {
      BuildSub(ps, buf, r);
      var b := Build(ps, buf, r).kind.branch;
      forall q: nat | q < 4 ensures Distinct(Held(b[q])) {
        HeldDistinct(ps, inside, Quadrant(r, q));
      }
      DistinctPrefix(ps, inside, r, b, 4);
      assert b[..4] == b;
    }
  }

  lemma {:induction false} DistinctPrefix(ps: seq<Particle>, inside: seq<nat>, r: Rect, b: seq<Node>, n: nat)
    requires Refs(ps, inside) && n <= 4 && |b| == 4
    requires forall q: nat :: q < 4 ==> b[q] == Build(ps, inside, Quadrant(r, q))
    requires forall q: nat :: q < 4 ==> Distinct(Held(b[q]))
    ensures Distinct(HeldIn(b[..n]))
    decreases n
  {
    if n > 0 {
      var init := b[..n][..n - 1];
      assert init == b[..n - 1];
      DistinctPrefix(ps, inside, r, b, n - 1);
      forall k | k in HeldIn(init) ensures k !in Held(b[n - 1]) {
        HeldInMember(init, k);
        var j :| 0 <= j < |init| && k in Held(init[j]);
        HeldFromInside(ps, inside, Quadrant(r, j), k);
        if k in Held(b[n - 1]) {
          HeldFromInside(ps, inside, Quadrant(r, n - 1), k);
          QuadrantsDisjoint(r, j, n - 1, ps[k].px, ps[k].py);
        }
      }
      DistinctConcat(HeldIn(init), Held(b[n - 1]));
    }
  }

  /* ---------------------------------------------------------------------- */
  /* Mass of the children                                                   */
  /* ---------------------------------------------------------------------- */

  /** With both sides of `r` even, the masses of the quadrants' `In` buffers
      add up to the mass of particles inside `r`. */
  lemma {:induction false} MassSplit(ps: seq<Particle>, ids: seq<nat>, r: Rect)
    requires Refs(ps, ids) && r.w % 2 == 0 && r.h % 2 == 0
    requires forall i :: 0 <= i < |ids| ==> InRect(r, ps[ids[i]].px, ps[ids[i]].py)
    ensures MassSum(ps, ids) ==
      MassSum(ps, Filter(ps, ids, Quadrant(r, 0))) + MassSum(ps, Filter(ps, ids, Quadrant(r, 1))) +
      MassSum(ps, Filter(ps, ids, Quadrant(r, 2))) + MassSum(ps, Filter(ps, ids, Quadrant(r, 3)))
  {
    if ids != [] {
      var n := |ids| - 1;
      var init, last := ids[..n], ids[n];
      assert ids[..n + 1] == ids;
      MassSplit(ps, init, r);
      var p := ps[last];
      var home := QuadrantOf(r, p.px, p.py);
      forall q: nat | q < 4
        ensures MassSum(ps, Filter(ps, ids, Quadrant(r, q))) ==
          MassSum(ps, Filter(ps, init, Quadrant(r, q))) + if q == home then p.mass else 0.0
      {
        FilterStep(ps, ids, n, Quadrant(r, q));
        if q == home {
          MassStep(ps, Filter(ps, init, Quadrant(r, q)), last);
        } else {
          QuadrantsDisjoint(r, q, home, p.px, p.py);
        }
      }
    }
  }

  /**
   * Mass conservation between levels: when the width and the height of an
   * internal node are even, its mass is the sum of its four children's.
   */
  lemma ChildMassesWhenEven(ps: seq<Particle>, buf: seq<nat>, r: Rect)
    requires Refs(ps, buf)
    requires Build(ps, buf, r).kind.Sub?
    requires r.w % 2 == 0 && r.h % 2 == 0
    ensures var t := Build(ps, buf, r); var b := t.kind.branch;
      |b| == 4 && t.mass == b[0].mass + b[1].mass + b[2].mass + b[3].mass
  {
    var inside := Filter(ps, buf, r);
    BuildSub(ps, buf, r);
    BuildAggregates(ps, buf, r);
    forall q: nat | q < 4
      ensures Build(ps, inside, Quadrant(r, q)).mass == MassSum(ps, Filter(ps, inside, Quadrant(r, q)))
    {
      BuildAggregates(ps, inside, Quadrant(r, q));
    }
    MassSplit(ps, inside, r);
  }

  /* ---------------------------------------------------------------------- */
  /* Coincident particles                                                   */
  /* ---------------------------------------------------------------------- */

  /** How many entries of a buffer sit at exactly (x, y). */
  function CountAt(ps: seq<Particle>, ids: seq<nat>, x: real, y: real): (n: nat)
    requires Refs(ps, ids)
    ensures n <= |ids|
  {
    if ids == [] then 0
    else
      var last := ids[|ids| - 1];
      CountAt(ps, ids[..|ids| - 1], x, y) + if ps[last].px == x && ps[last].py == y then 1 else 0
  }

  /** Entries at a point of `r` all pass into `In` together. */
  lemma {:induction false} CountAtFilter(ps: seq<Particle>, ids: seq<nat>, r: Rect, x: real, y: real)
    requires Refs(ps, ids) && InRect(r, x, y)
    ensures CountAt(ps, Filter(ps, ids, r), x, y) == CountAt(ps, ids, x, y)
  {
    if ids != [] {
      var n := |ids| - 1;
      assert ids[..n + 1] == ids;
      CountAtFilter(ps, ids[..n], r, x, y);
      var rest := Filter(ps, ids[..n], r);
      assert (rest + [ids[n]])[..|rest|] == rest;
    }
  }

  /**
   * Two buffer entries at the same position are never separated by a split,
   * so neither reaches a leaf: the recursion ends at zero-width nodes and the
   * particle is held by no leaf at all.
   */
  lemma {:induction false} CoincidentDropped(ps: seq<Particle>, buf: seq<nat>, r: Rect, k: nat)
    requires Refs(ps, buf) && k < |ps|
    requires CountAt(ps, buf, ps[k].px, ps[k].py) >= 2
    ensures k !in Held(Build(ps, buf, r))
    decreases r.w
  {
    if k in Held(Build(ps, buf, r)) {
      HeldFromInside(ps, buf, r, k);
      var inside := Filter(ps, buf, r);
      CountAtFilter(ps, buf, r, ps[k].px, ps[k].py);
      BuildSub(ps, buf, r);
      var b := Build(ps, buf, r).kind.branch;
      HeldInMember(b, k);
      var q :| 0 <= q < 4 && k in Held(b[q]);
      CoincidentDropped(ps, inside, Quadrant(r, q), k);
      assert false;
    }
  }

  /* ---------------------------------------------------------------------- */
  /* Odd sizes                                                              */
  /* ---------------------------------------------------------------------- */

  /**
   * A particle in the last row of a node of odd height (or the last column
   * of a node of odd width) lies in none of the four children, so once it
   * shares that node with another particle no leaf holds it, although its
   * mass still counts in the node's mass.
   */
  lemma LastRowLost(ps: seq<Particle>, buf: seq<nat>, r: Rect, k: nat)
    requires Refs(ps, buf) && k in Filter(ps, buf, r) && |Filter(ps, buf, r)| > 1
    requires (r.x + 2 * Half(r.w)) as real <= ps[k].px || (r.y + 2 * Half(r.h)) as real <= ps[k].py
    ensures k !in Held(Build(ps, buf, r))
  {
    if k in Held(Build(ps, buf, r)) {
      BuildSub(ps, buf, r);
      var b := Build(ps, buf, r).kind.branch;
      HeldInMember(b, k);
      var q :| 0 <= q < 4 && k in Held(b[q]);
      HeldFromInside(ps, Filter(ps, buf, r), Quadrant(r, q), k);
      assert false;
    }
  }

  /**
   * A particle held somewhere below an internal node, lying in child `q`'s
   * rectangle, is held below child `q`: no other child can hold it.
   */
  lemma HeldInChild(ps: seq<Particle>, buf: seq<nat>, r: Rect, q: nat, k: nat)
    requires Refs(ps, buf) && |Filter(ps, buf, r)| > 1 && q < 4 && k < |ps|
    requires k in Held(Build(ps, buf, r)) && InRect(Quadrant(r, q), ps[k].px, ps[k].py)
    ensures k in Held(Build(ps, Filter(ps, buf, r), Quadrant(r, q)))
  {
    BuildSub(ps, buf, r);
    var b := Build(ps, buf, r).kind.branch;
    HeldInMember(b, k);
    var q' :| 0 <= q' < 4 && k in Held(b[q']);
    HeldFromInside(ps, Filter(ps, buf, r), Quadrant(r, q'), k);
    if q' != q {
      QuadrantsDisjoint(r, q, q', ps[k].px, ps[k].py);
    }
  }

  /** A particle lost below child 0 of a node whose `In` is its whole buffer,
      and lying in child 0, is lost below the node too. */
  lemma LostInFirstChild(ps: seq<Particle>, buf: seq<nat>, r: Rect, k: nat)
    requires Refs(ps, buf) && Filter(ps, buf, r) == buf && |buf| > 1 && k < |ps|
    requires InRect(Quadrant(r, 0), ps[k].px, ps[k].py)
    requires k !in Held(Build(ps, buf, Quadrant(r, 0)))
    ensures k !in Held(Build(ps, buf, r))
  {
    if k in Held(Build(ps, buf, r)) {
      HeldInChild(ps, buf, r, 0, k);
    }
  }

  /** The two particles of the odd-row example. */
  function OddRowPair(): seq<Particle>
  {
    [Particle(0.5, 0.5, 0.0, 0.0, 1.0), Particle(0.5, 74.5, 0.0, 0.0, 1.0)]
  }

  lemma OddRowPairInside(r: Rect)
    requires InRect(r, 0.5, 0.5) && InRect(r, 0.5, 74.5)
    ensures Filter(OddRowPair(), [0, 1], r) == [0, 1]
  {
    var buf: seq<nat> := [0, 1];
    assert buf[..1] == [0];
  }

  /**
   * Going down from the 800 x 600 root through child 0, heights run 600,
   * 300, 150, 75: a particle at (0.5, 74.5) sharing the 100 x 75 node with
   * one at (0.5, 0.5) counts in that node's mass, but is held by no leaf of
   * that node nor of the root's tree.
   */
  lemma OddRowLost()
    ensures Quadrant(Quadrant(Quadrant(Root, 0), 0), 0) == Rect(0, 0, 100, 75)
    ensures Build(OddRowPair(), [0, 1], Rect(0, 0, 100, 75)).mass == 2.0
    ensures 1 !in Held(Build(OddRowPair(), [0, 1], Rect(0, 0, 100, 75)))
    ensures 1 !in Held(Build(OddRowPair(), [0, 1], Root))
  {
    var ps, buf: seq<nat> := OddRowPair(), [0, 1];
    var r1 := Quadrant(Root, 0);
    var r2 := Quadrant(r1, 0);
    var r3 := Quadrant(r2, 0);
    assert r3 == Rect(0, 0, 100, 75);
    OddRowPairInside(r3);
    assert buf[..1] == [0];
    assert MassSum(ps, buf) == 2.0;
    LastRowLost(ps, buf, r3, 1);
    OddRowPairInside(r2);
    LostInFirstChild(ps, buf, r2, 1);
    OddRowPairInside(r1);
    LostInFirstChild(ps, buf, r1, 1);
    OddRowPairInside(Root);
    LostInFirstChild(ps, buf, Root, 1);
  }

  /** A rectangle 0 or less wide or tall keeps nothing in `In`. */
  lemma {:induction false} FlatRectEmpty(ps: seq<Particle>, buf: seq<nat>, r: Rect)
    requires Refs(ps, buf) && (r.w <= 0 || r.h <= 0)
    ensures Filter(ps, buf, r) == []
  {
    if buf != [] {
      FlatRectEmpty(ps, buf[..|buf| - 1], r);
    }
  }

  /** The particles held below each of four children, one child after another. */
  lemma FourHeld(b: seq<Node>)
    requires |b| == 4
    ensures HeldIn(b) == Held(b[0]) + Held(b[1]) + Held(b[2]) + Held(b[3])
  {
    assert b[..1][..0] == [] && b[..2][..1] == b[..1] && b[..3][..2] == b[..2] && b[..4][..3] == b[..3];
    assert HeldIn(b[..1]) == Held(b[0]);
    assert HeldIn(b[..2]) == HeldIn(b[..1]) + Held(b[1]);
    assert HeldIn(b[..3]) == HeldIn(b[..2]) + Held(b[2]);
    assert b[..4] == b;
  }

  /**
   * A node 1 wide (or 1 tall) holding two or more particles, wherever they
   * are, has children 0 wide (or 0 tall): they contain nothing, and every
   * particle of the node is dropped.
   */
  lemma ThinNodeDropsAll(ps: seq<Particle>, buf: seq<nat>, r: Rect)
    requires Refs(ps, buf) && |Filter(ps, buf, r)| > 1
    requires r.w == 1 || r.h == 1
    ensures Held(Build(ps, buf, r)) == []
  {
    var inside := Filter(ps, buf, r);
    BuildSub(ps, buf, r);
    var b := Build(ps, buf, r).kind.branch;
    forall q: nat | q < 4 ensures Held(b[q]) == [] {
      assert Quadrant(r, q).w == 0 || Quadrant(r, q).h == 0;
      FlatRectEmpty(ps, inside, Quadrant(r, q));
    }
    FourHeld(b);
  }

  /* ---------------------------------------------------------------------- */
  /* What the tree depends on                                               */
  /* ---------------------------------------------------------------------- */

  /** Two particle arrays that agree on every position and mass. */
  predicate SamePlacement(ps: seq<Particle>, qs: seq<Particle>)
  {
    |ps| == |qs| &&
    forall i :: 0 <= i < |ps| ==> ps[i].px == qs[i].px && ps[i].py == qs[i].py && ps[i].mass == qs[i].mass
  }

  lemma {:induction false} SumsIgnoreVelocity(ps: seq<Particle>, qs: seq<Particle>, ids: seq<nat>, r: Rect)
    requires Refs(ps, ids) && SamePlacement(ps, qs)
    ensures Refs(qs, ids)
    ensures Filter(ps, ids, r) == Filter(qs, ids, r)
    ensures MassSum(ps, ids) == MassSum(qs, ids)
    ensures Moment(ps, ids, X) == Moment(qs, ids, X) && Moment(ps, ids, Y) == Moment(qs, ids, Y)
  {
    if ids != [] {
      SumsIgnoreVelocity(ps, qs, ids[..|ids| - 1], r);
    }
  }

  /** The tree reads positions and masses only: velocities do not change it. */
  lemma {:induction false} BuildIgnoresVelocity(ps: seq<Particle>, qs: seq<Particle>, buf: seq<nat>, r: Rect)
    requires Refs(ps, buf) && SamePlacement(ps, qs)
    ensures Refs(qs, buf)
    ensures Build(ps, buf, r) == Build(qs, buf, r)
    decreases r.w
  {
    SumsIgnoreVelocity(ps, qs, buf, r);
    var inside := Filter(ps, buf, r);
    SumsIgnoreVelocity(ps, qs, inside, r);
    if |inside| > 1 {
      BuildSub(ps, buf, r);
      BuildSub(qs, buf, r);
      forall q: nat | q < 4 ensures Build(ps, inside, Quadrant(r, q)) == Build(qs, inside, Quadrant(r, q)) {
        BuildIgnoresVelocity(ps, qs, inside, Quadrant(r, q));
      }
    }
  }
}
