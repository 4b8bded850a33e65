# GravitySim Barnes-Hut core in Dafny

GravitySim is a 2-D N-body simulation that renders with SDL. Each frame it
builds a Barnes-Hut quadtree over the particles in the 800 x 600 world
rectangle. Each particle then walks that tree to pick up gravitational
velocity increments, and drifts by its new velocity times `dt`. This project
models that core of `Main.c` and proves properties of it. The core has four
parts:

- `geometry.dfy` (module `Geometry`) covers rectangles and the half-open
  containment test `boundsCheck`. It also covers the quadrant split, which
  halves width and height with C's truncating integer division.
- `quadtree.dfy` (module `QuadTree`) covers `genTree`. The function `Build`
  is the specification of the tree. The method `Gather` is the accumulation
  loop into `mass`, `mX`, `mY` and the `In` buffer. The recursive method
  `GenTree` is proved to return `Build`. Particles are referred to by their
  index in a snapshot of the particle array, as the C code refers to them by
  pointer.
- `traversal.dfy` (module `Traversal`) covers `updateParticle`, as a
  recursive method on the particle array. `Interactions` is its
  specification: the nodes the particle takes a kick from, in traversal
  order. The kick itself is a parameter.
- `simulation.dfy` (module `Simulation`) covers one iteration of the main
  loop. `Step` builds the tree once and then updates and advances every
  particle in array order. It is proved equal to `StepAll` of the old array.

Reals stand in for `float` and unbounded integers for `int`. A node of mass
0 has an `Undefined` centre; the C code computes 0/0 there.

Where the code and the design intent differ, the model follows the code:

- **Quadrants do not always tile the parent.** The quadrants tile their
  parent only when the width and height are even. With an odd side, the last
  column or row of the parent is in no child (`TilesIffEven`, `LastRowLost`).
  Going down from the 800 x 600 root, the odd heights are 75, 37, 9 and 1,
  and the odd widths are 25, 3 and 1.
- **Coincident particles are dropped.** The code has no depth guard, yet the
  recursion still ends: a node holding two particles is at least 1 by 1, and
  halving strictly shrinks the width. Particles at one position are therefore
  carried down to a zero-width node and held by no leaf (`CoincidentDropped`).
- **Empty nodes still get a centre computed.** An empty node's centre is
  computed as 0/0. Its distance in the traversal then depends on an undefined
  float-to-int conversion, which is the parameter `nanDist`.
- **A node 1 unit wide or tall drops everything in it.** Such a node with
  two or more particles is split into children 0 units wide or tall. Those
  children contain nothing, so none of its particles is held by any leaf
  (`ThinNodeDropsAll`).
- **The skip test is looser than "the particle is at the centre".**
  `distApprox` sums the int-truncated coordinate differences. So it is 0
  whenever the particle is within 1 unit of a node's centre along both axes.
  That skips the whole node, internal or not (`Dist`, `NearCentreSkipped`).
- **theta <= 0 is not direct summation.** With theta <= 0 every internal node
  that is reached is opened (`ExactWhenThetaNonPositive`). A subtree whose
  centre is within 1 unit of the particle is still skipped whole. For three
  unit masses at (0.5, 0.5), (2.5, 0.5) and (1.5, 0.5) in a 4 x 4 node, the
  middle one sits on the centre of mass and takes no kick at all
  (`CentreParticleSkipsAll`).

The child loop of `updateParticle` (Main.c:252-254) is its own method,
`UpdateFromChildren`, which `UpdateParticle` calls on an opened node.

## Model

| member | source | states |
|---|---|---|
| Geometry.InRect | Main.c:268-270 | `boundsCheck`: x <= px < x + w and y <= py < y + h; a rectangle that contains a point has w >= 1 and h >= 1, so one with w <= 0 or h <= 0 contains nothing |
| Geometry.Half | Main.c:224-225 | C's `w/2` truncates toward zero: for n >= 0, 2h <= n <= 2h + 1, and for n >= 1 the half is strictly smaller than n (the recursion measure) |
| Geometry.Quadrant | Main.c:224-235 | a child of a rectangle with non-negative sides lies within the parent, and a child of a rectangle at least 1 wide is strictly narrower |
| Geometry.QuadrantInsideParent | Main.c:224-235 | every point of a child rectangle is a point of the parent |
| Geometry.QuadrantsDisjoint | Main.c:224-235 | under half-open containment no point lies in two different children |
| Geometry.QuadrantOf | Main.c:228-235 | with even sides every point of the parent lies in some child |
| Geometry.TilesIffEven | Main.c:224-235 | the four children cover exactly the parent's points if and only if its width and height are both even |
| QuadTree.Filter | Main.c:204-211 | `In` holds only entries that pass `boundsCheck`, and never more than `count` of them |
| QuadTree.FilterMember | Main.c:204-211 | an index is in `In` if and only if it is in the buffer and its particle is inside the node |
| QuadTree.FilterCount | Main.c:204-211 | `In` keeps each buffer entry as often as it occurs when it is inside the node, and not at all otherwise |
| QuadTree.FilterConcat | Main.c:204-211 | `In` keeps buffer order: filtering a concatenation concatenates the filtered parts |
| QuadTree.CentreOf | Main.c:213-214 | the centre is defined exactly when the mass is not 0 |
| QuadTree.CentreIsMean | Main.c:207-214 | a defined centre is the mass-weighted mean: mass times each coordinate gives back the accumulated moment |
| QuadTree.MassSumPositive | Main.c:206 | with positive masses, the accumulated `mass` is positive exactly when some entry was accumulated |
| QuadTree.FilterMass | Main.c:204-206 | the mass summed over `In` equals the sum of the masses of the buffer entries that pass `boundsCheck`, an independent masked sum |
| QuadTree.FilterMoment | Main.c:204-208 | each moment summed over `In` equals the masked sum of mass times coordinate over the buffer entries inside the node |
| QuadTree.CentreIsMaskedMean | Main.c:204-214 | a node with non-zero masked mass has that mass, and its centre times the masked mass gives back the masked moments: the centre is the mass-weighted mean of the buffer entries inside the node |
| QuadTree.Gather | Main.c:202-212 | the accumulation loop leaves `In` equal to the filtered buffer, `mass` equal to its mass sum, and `mX`, `mY` equal to its moments |
| QuadTree.GenTree | Main.c:201-244 | the node built is `Build` of the buffer and the bounds |
| QuadTree.Build | Main.c:201-244 | a node has the bounds it was given; an internal node is at least 1 by 1 with four children; a node with nothing inside has mass 0 and no centre |
| QuadTree.Children | Main.c:215-238 | an internal node gets exactly four children, child q having the bounds of quadrant q |
| QuadTree.MassIsContainedMass | Main.c:204-206 | a node's mass is the total mass of exactly the buffer entries inside it, as an independent masked sum |
| QuadTree.Classification | Main.c:215-243 | internal if and only if more than one entry is inside, leaf if and only if exactly one (holding `In[0]`), neither if and only if none (mass 0, no centre); the bounds are the ones given |
| QuadTree.LeafAggregates | Main.c:204-214 | a leaf's mass is its particle's mass, and with non-zero mass its centre is the particle's position |
| QuadTree.MomentBounds | Main.c:206-208 | with positive masses and every coordinate in [lo, hi), the mass is positive and each moment lies in [lo times the mass, hi times the mass) |
| QuadTree.CentreInsideNode | Main.c:204-214 | with positive masses, a node with some buffer entry inside has a defined centre, and that centre passes `boundsCheck` for the node |
| QuadTree.BuildSub | Main.c:215-237 | an internal node is at least 1 by 1 and its four children are built from `In`, in the four quadrants in order |
| QuadTree.BuildWellShaped | Main.c:215-243 | every node of a built tree has its given bounds; empty nodes have mass 0; internal nodes have four children whose bounds are the quadrants |
| QuadTree.HeldFromInside | Main.c:209-242 | a particle held by a leaf of a node's subtree is in the node's buffer and inside the node |
| QuadTree.HeldInsideAncestors | Main.c:209-242 | a particle held by a leaf lies inside the bounds of every ancestor |
| QuadTree.HeldDistinct | Main.c:209-242 | no particle is held by two leaves, for any buffer: an entry the buffer repeats coincides with itself and is held by none |
| QuadTree.MassSplit | Main.c:204-237 | with even sides, the masses of the four children's `In` buffers add up to the parent's |
| QuadTree.ChildMassesWhenEven | Main.c:204-237 | an internal node with even width and height has the sum of its children's masses as its mass |
| QuadTree.CountAtFilter | Main.c:204-211 | all buffer entries at one point of the node pass into `In` together |
| QuadTree.CoincidentDropped | Main.c:215-237 | a particle sharing its exact position with another buffer entry is held by no leaf, and the recursion still ends |
| QuadTree.LastRowLost | Main.c:224-237 | a particle in the last column or row of a node with an odd side, sharing the node with another, is held by no leaf |
| QuadTree.OddRowLost | Main.c:133-136 | child 0 of child 0 of child 0 of the root is 100 by 75; two particles there, at (0.5, 0.5) and (0.5, 74.5), give that node mass 2, yet the second is held by no leaf of that node, nor of the tree built from the 800 x 600 root |
| QuadTree.HeldInChild | Main.c:236-238 | a particle held below an internal node and lying in quadrant q is held below child q |
| QuadTree.LostInFirstChild | Main.c:236-238 | a particle lying in child 0 and held by no leaf below child 0 is held by no leaf below the parent |
| QuadTree.FlatRectEmpty | Main.c:268-270 | a rectangle 0 or less wide or tall lets nothing into `In` |
| QuadTree.ThinNodeDropsAll | Main.c:224-237 | a node 1 wide or 1 tall with more than one particle inside holds no particle in any leaf |
| QuadTree.SumsIgnoreVelocity | Main.c:204-208 | `In`, the mass and the moments depend only on positions and masses |
| QuadTree.BuildIgnoresVelocity | Main.c:204-214 | the tree depends only on positions and masses: two arrays that agree on those give the same tree |
| Traversal.Trunc | Main.c:247 | float-to-int conversion truncates toward zero: the result is within 1 of the value, on the side of 0 |
| Traversal.IntAbs | Main.c:247 | `abs` returns the value or its negation, never negative |
| Traversal.Dist | Main.c:247-250 | `distApprox` is non-negative for a defined centre, and 0 exactly when the particle is within 1 unit of the centre along both axes |
| Traversal.Opens | Main.c:251 | a node is opened only when it is internal; for an internal node at positive distance d it is opened exactly when w > theta times d |
| Traversal.Interactions | Main.c:246-265 | the traversal takes a kick from no more nodes than it makes calls |
| Traversal.InteractionsIn | Main.c:252-254 | the children's traversals together take no more kicks than they make calls |
| Traversal.Visits | Main.c:246-255 | a traversal makes at least one call |
| Traversal.VisitsIn | Main.c:252-254 | the children's traversals make at least one call per child |
| Traversal.Pull | Main.c:261-264 | a single kicking node contributes exactly the kick of its mass and centre on the particle's position |
| Traversal.Kicked | Main.c:261-264 | a kick changes velocity only, never position or mass |
| Traversal.Outlines | Main.c:257-258 | the rectangles drawn are the bounds of the kicking nodes, one per node, in order |
| Traversal.UpdateParticle | Main.c:246-266 | only particle `i` changes, by the kicks of exactly the nodes `Interactions` lists; with `dispTree` the drawn rectangles are their bounds, and the velocity result does not depend on `dispTree`; the number of calls made equals `Visits` |
| Traversal.UpdateFromChildren | Main.c:251-255 | over an opened node's four children, only particle `i` changes, by the kicks of the children's traversals in child order; the drawn rectangles and the call count are those of `InteractionsIn` and `VisitsIn` |
| Traversal.PullConcat | Main.c:252-254 | the kick sum over one list of nodes followed by another is the sum of the two kick sums |
| Traversal.KickedTwice | Main.c:252-254 | kicks from one child after another add up to the kicks of the concatenated lists |
| Traversal.OutlinesConcat | Main.c:252-258 | the rectangles drawn for one list of nodes followed by another are the two lists of rectangles one after the other |
| Traversal.NoSelfKick | Main.c:247-250 | a particle takes no kick from the leaf holding it when its mass is not 0 |
| Traversal.NearCentreSkipped | Main.c:247-250 | a particle within 1 unit of a node's centre along both axes skips the whole node in one call |
| Traversal.KicksComeFromUnopened | Main.c:247-265 | every kicking node passed the distance test and failed the opening test |
| Traversal.KicksInComeFromUnopened | Main.c:252-254 | the same holds for every node kicking through the children's traversals |
| Traversal.VisitsMonotone | Main.c:251 | raising theta never increases the number of calls |
| Traversal.VisitsInMonotone | Main.c:251-254 | the same holds for the children's traversals together |
| Traversal.ExactWhenThetaNonPositive | Main.c:251-255 | with theta <= 0 and a non-negative undefined distance, the traversal of a built tree is `Frontier`, the traversal that opens every internal node it does not skip, and no kick comes from an internal node |
| Traversal.ExactInWhenThetaNonPositive | Main.c:252-254 | the same holds for the children's traversals together |
| Traversal.CentreParticleSkipsAll | Main.c:247-250 | for three unit masses at (0.5, 0.5), (2.5, 0.5), (1.5, 0.5) in a 4 x 4 node, the node is internal with mass 3, yet the middle particle takes no kick for any theta, because it sits on the centre of mass |
| Simulation.Iota | Main.c:88 | the buffer's entry i refers to particle i |
| Simulation.Tree | Main.c:132-142 | a step's tree has the 800 x 600 world as its bounds, four children when internal, and is empty with mass 0 for an empty array |
| Simulation.Advance | Main.c:155-156 | the drift moves the position by the velocity times dt and changes neither velocity nor mass |
| Simulation.StepOne | Main.c:149-156 | a particle is kicked by the tree and then moved by its new velocity times dt; its mass is unchanged |
| Simulation.StepAll | Main.c:132-156 | a step keeps the number of particles and every mass |
| Simulation.Overlay | Main.c:149-154 | rectangles are drawn only for a view index that names a particle, on a step that is drawn, and no more of them than the viewed particle's traversal makes calls |
| Simulation.Step | Main.c:132-156 | the loop body builds the root tree once from the old array, leaves the array as `StepAll` of it, and draws the viewed particle's kicking nodes only |
| Simulation.LoneParticleDrifts | Main.c:132-156 | a single particle of non-zero mass inside the world moves in a straight line |
| Simulation.TreeIgnoresVelocity | Main.c:132-142 | a step's tree is the same for arrays that differ only in velocities |

## Left out

- SDL setup, the event loop, colours and frame presentation (`SetPalette`, `drawTree`, `drawTreeCM`, `lerp`, `SDL_Render*`) are out. `drawTreeNoRecurse` is modelled only as the list of rectangles drawn (`Outlines`).
- The view index and the step count are parameters of `Step`. Key presses and the frame counter are not modelled.
- Random initial conditions (`randInt`, `rand`, `cos`, `sin`) are out; `Step` accepts any particle array.
- The force formula (`pow`, `sqrt`, `G`, `damping`, `dt` in Main.c:261-264) is the parameter `kick`, a function of the node's mass, the node's centre and the particle's position. Which nodes kick, and in what order, is modelled; the kick's value is not.
- Floating point is not modelled: positions, velocities and masses are reals. There is no rounding, and kicks are summed exactly. A NaN centre is `Undefined`.
- Traversal.Dist: the distance of a node without a centre is the parameter `nanDist`, because C leaves the NaN-to-int conversion undefined. Float-to-int conversion of values out of `int` range is not modelled either.
- Integer width is not modelled: rectangle coordinates and `distApprox` are unbounded integers.
- `malloc` of `In` and of the children, and the leaked memory, are out; the tree is an immutable value.
- Sequential in-place updates of a node's fields during `genTree` are modelled as the values `Gather` returns and the node `GenTree` assembles.
- QuadTree.GenTree: the root's explicit zeroing before the call (Main.c:137-141) is implicit, since `Gather` starts its sums at 0.
- Traversal.UpdateParticle: requires a well-shaped tree (`WellShaped`, which every built tree is by `BuildWellShaped`). This stands in for the C node's fixed array of four children, which the loop over `branch[0..3]` relies on.
- Traversal.UpdateFromChildren: requires four well-shaped children, for the same reason.
