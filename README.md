# Elastic, modelled in Dafny

Elastic is an iOS transition plugin for Hero. The user drags from a screen
edge, the view under the finger is drawn on a Metal mesh that folds around
the touch, and at the end of the gesture the transition either completes or
cancels. This project models the three pieces of logic in it that can be
stated exactly, and proves their properties:

- `edges.dfy` (module `Edges`): the `Edge` enumeration, with its raw
  values, `opposite` and `toUIRectEdge`.
- `hero_plugin.dfy` (module `ElasticPlugin`): the `elastic` modifier and the
  `Plugin` class. The class holds the plugin's own fields (`view`, `edge`,
  `appearing`, `gestureRecognizer`, `ending`). Its methods are
  `canAnimate`, `animate`, `update` and `pan`. Around the class are the pure
  target projections, the commit decision, the progress and the gravity
  direction.
- `shape_view.dfy` (module `ElasticShape`): the renderer `ShapeView`.
  It models the nested loops of `createBuffers` (a row-major vertex grid and
  six triangle indices per cell), the `UInt16` arithmetic those loops do,
  the `frame` observer that resizes the grid and the `edge` observer that
  sets the shader flags.
- `geometry.dfy` (module `Geometry`): `CGPoint`, `CGVector` and `CGRect`
  over `real`, as the rest uses them. `wrappers.dfy` holds `Option`.

Inputs the plugin reads from the platform are parameters of its methods:
the touch location, the release velocity, the gesture state, the state of
each recognizer and the animated view's frame. The container bounds are a
constant field. The host's `end`, `cancel` and `update(progress:)` calls
become a returned `HostCall`. The animator's behaviours become a
`Dynamics` value holding the parameters the plugin sets.

`distance`, `clamp`, point `-` and `CGRect.center` come from a dependency
that is not part of this model. They are modelled as follows. `distance` is
Euclidean and is compared through its square. `clamp` keeps the nearest
point of the closed rectangle. `contains` is half open, as in Core
Graphics. The rectangle accessors standardise negative sizes.

Two behaviours of the code worth knowing:

- The progress division in `update` is not guarded. For bounds of zero
  extent along the edge's axis the model gives `NotFinite`: the infinity or
  NaN a `CGFloat` division by zero produces.
- `clean` does not reset `view`. A plugin instance therefore claims at most
  one view in its lifetime (`ElasticPlugin.SecondClaimRefused`).

## Model

| member | source | states |
|---|---|---|
| Edges.RawValue | Sources/Extensions.swift:5-6 | the raw values are 0..3 in declaration order top, bottom, left, right, one per case |
| Edges.FromRawValue | Sources/Extensions.swift:5-6 | `Edge(rawValue:)` succeeds exactly on 0..3 and inverts the raw value |
| Edges.RawValueRoundTrip | Sources/Extensions.swift:5-6 | decoding the raw value of an edge gives back the edge |
| Edges.RawValueInjective | Sources/Extensions.swift:5-6 | different edges have different raw values |
| Edges.Opposite | Sources/Extensions.swift:7-17 | no edge is its own opposite, and the opposite stays on the same axis (left and right, top and bottom) |
| Edges.OppositeInvolution | Sources/Extensions.swift:7-17 | the opposite of the opposite is the edge itself |
| Edges.OppositeInjective | Sources/Extensions.swift:7-17 | different edges have different opposites |
| Edges.ToUIRectEdge | Sources/Extensions.swift:19-30 | each edge maps to the single-bit `UIRectEdge` of the same name, and only that edge does |
| Edges.ToUIRectEdgeInjective | Sources/Extensions.swift:19-30 | `toUIRectEdge` is injective |
| ElasticPlugin.Elastic | Sources/ElasticHeroPlugin.swift:40-45 | the modifier writes `target["elastic"][edge] = g`, starting from an empty table when the key is absent or holds another type; every other key of the state and every other edge of the table keep their value |
| ElasticPlugin.ElasticIdempotent | Sources/ElasticHeroPlugin.swift:40-45 | applying the same modifier twice equals applying it once |
| ElasticPlugin.ElasticCommutes | Sources/ElasticHeroPlugin.swift:40-45 | modifiers for different edges commute |
| ElasticPlugin.ElasticLastWins | Sources/ElasticHeroPlugin.swift:40-45 | for one edge the later recognizer replaces the earlier one |
| ElasticPlugin.OpenedTarget | Sources/ElasticHeroPlugin.swift:218-225 | the opened target keeps the cross-axis coordinate of the point and lies on the opened line: max x for left, min x for right, min y for bottom, max y for top |
| ElasticPlugin.ClosedTarget | Sources/ElasticHeroPlugin.swift:215-217 | the closed target keeps the cross-axis coordinate and lies on the opened line of the opposite edge |
| ElasticPlugin.Target | Sources/ElasticHeroPlugin.swift:227-233 | the target keeps the cross-axis coordinate and lies on the closed line when `appearing == finished`, the opened line otherwise |
| ElasticPlugin.OppositeLines | Sources/ElasticHeroPlugin.swift:215-225 | the opened and closed lines are the min and max sides of the bounds on the edge's axis, in some order, and lie the bounds' extent apart |
| ElasticPlugin.ProjectionIdempotent | Sources/ElasticHeroPlugin.swift:215-225 | projecting onto a boundary line is idempotent, and projecting from the other line gives the same point |
| ElasticPlugin.TargetsAreBothProjections | Sources/ElasticHeroPlugin.swift:227-233 | the finished and unfinished targets are the closed and opened targets in some order, and they differ exactly when the bounds have extent on the axis |
| ElasticPlugin.SqDistAlongAxis | Sources/ElasticHeroPlugin.swift:151 | a point and its target are as far apart as they are along the axis |
| ElasticPlugin.CommitsAlongAxis | Sources/ElasticHeroPlugin.swift:150-155 | the commit test on Euclidean distances is the test on axis distances to the finished and unfinished lines |
| ElasticPlugin.TieCancels | Sources/ElasticHeroPlugin.swift:151-155 | a shift point as far from both targets cancels |
| ElasticPlugin.CommitsPastMiddle | Sources/ElasticHeroPlugin.swift:150-155 | with non-zero extent, the transition commits exactly when the shift point lies strictly past the middle of the bounds on the finished side |
| ElasticPlugin.Progress | Sources/ElasticHeroPlugin.swift:159-173 | the progress is finite exactly when the bounds have extent on the edge's axis; the division is not guarded |
| ElasticPlugin.ProgressAtInitial | Sources/ElasticHeroPlugin.swift:162-172 | the progress is 0 at the initial target line |
| ElasticPlugin.ProgressAtFinal | Sources/ElasticHeroPlugin.swift:162-172 | the progress is 1 at the final target line |
| ElasticPlugin.ProgressInUnitInterval | Sources/ElasticHeroPlugin.swift:159-172 | for a point on the closed bounds the progress is in [0, 1] |
| ElasticPlugin.ProgressMonotone | Sources/ElasticHeroPlugin.swift:159-172 | the progress grows as the point moves toward the final target |
| ElasticPlugin.UpdateProgressInUnitInterval | Sources/ElasticHeroPlugin.swift:159-173 | the progress of the clamped shift point that `update` reports lies in [0, 1] |
| ElasticPlugin.ReleaseVector | Sources/ElasticHeroPlugin.swift:192-195 | below speed 100 the velocity is replaced by the touch location minus the bounds' centre, otherwise it is kept |
| ElasticPlugin.GravityDirection | Sources/ElasticHeroPlugin.swift:196-201 | gravity is a unit vector along the edge's axis: (±1, 0) for left and right, (0, ±1) otherwise, +1 exactly when the component is positive, so zero gives -1 |
| ElasticPlugin.GravityReverses | Sources/ElasticHeroPlugin.swift:196-201 | reversing a release vector with a non-zero axis component reverses the gravity |
| ElasticPlugin.SlowReleaseScenario | Sources/ElasticHeroPlugin.swift:192-201 | a slow release right of centre in 300 by 600 bounds, from a left-edge drag, falls toward +x |
| ElasticPlugin.ElasticTableOf | Sources/ElasticHeroPlugin.swift:42 | the elastic table of a target state, empty when the key is absent or holds a value of another type |
| ElasticPlugin.IsActive | Sources/ElasticHeroPlugin.swift:78 | a recognizer is active when it has begun or changed |
| ElasticPlugin.Settled | Sources/ElasticHeroPlugin.swift:149 | the completion condition: ending, and neither the shift nor the drag item inside the bounds |
| ElasticPlugin.Commits | Sources/ElasticHeroPlugin.swift:150-151 | the decision: the shift point strictly closer to its finished target than to its unfinished one |
| ElasticPlugin.InitialDynamics | Sources/ElasticHeroPlugin.swift:115-140 | the behaviours `animate` adds: collision on, resistances 30 and 6, elasticity 0, a touch spring of length 0, frequency 10, damping 1 anchored at the touch, a shift spring of length 50, frequency 1.5, damping 0.4, no gravity |
| ElasticPlugin.Released | Sources/ElasticHeroPlugin.swift:181-203 | the release removes the touch spring and the collision, zeroes both resistances and the shift spring's length, adds gravity along the given direction, and keeps the remaining spring parameters |
| ElasticPlugin.UnclaimedAnimate | Sources/ElasticHeroPlugin.swift:91 | a plugin that claimed nothing, asked to animate no views, returns 0 |
| ElasticPlugin.Plugin.constructor | Sources/ElasticHeroPlugin.swift:51-63 | a new plugin holds no view, edge left, not appearing, not ending, no behaviours, and both items at the origin |
| ElasticPlugin.Plugin.CanAnimate | Sources/ElasticHeroPlugin.swift:71-88 | a plugin holding a view refuses and changes nothing; otherwise it claims the view exactly when some recognizer of the elastic table is began or changed, records `appearing` and that recognizer, and sets the edge to its opposite when appearing, leaving the items and behaviours alone; on refusal nothing changes |
| ElasticPlugin.SecondClaimRefused | Sources/ElasticHeroPlugin.swift:71-75 | a second `canAnimate` on the same plugin is refused |
| ElasticPlugin.Plugin.Animate | Sources/ElasticHeroPlugin.swift:90-145 | with no view it returns 0 and changes nothing; otherwise a new renderer with the mesh for the frame and the flags for the edge, both items at the unfinished target of the touch, the renderer's shift from the closed target, the initial behaviours, listening to the shift item and the gesture, and an infinite duration |
| ElasticPlugin.NewRenderer | Sources/ElasticHeroPlugin.swift:92-111 | the renderer has the mesh for the frame and the edge, shift and touch position the plugin sets |
| ElasticPlugin.Plugin.Update | Sources/ElasticHeroPlugin.swift:148-174 | once ending with both items outside the bounds: End when strictly closer to the finished target, else Cancel, then it stops listening, so the decision is made at most once; otherwise it clamps both items into the renderer and reports the progress; the renderer's mesh, grid size, edge and frame never change |
| ElasticPlugin.Plugin.Pan | Sources/ElasticHeroPlugin.swift:176-205 | a changed gesture re-anchors the touch spring; any other state removes the target, sets `ending`, releases the springs, collision and resistances, and adds gravity in `GravityDirection` of the release vector |
| ElasticShape.TransposeFlag | Sources/ElasticShapeView.swift:49 | `transpose` is 1 exactly for top and bottom, else 0 |
| ElasticShape.FlipFlag | Sources/ElasticShapeView.swift:50 | `flip` is 1 exactly for bottom and left, else 0 |
| ElasticShape.FlagsIdentifyEdge | Sources/ElasticShapeView.swift:47-53 | the two flags tell the four edges apart |
| ElasticShape.OppositeFlags | Sources/ElasticShapeView.swift:47-53 | the opposite edge has the same transpose and the other flip |
| ElasticShape.ShapeView.SetEdge | Sources/ElasticShapeView.swift:47-53 | the observer records the edge and sets both flags; every other uniform field is unchanged |
| ElasticShape.Truncate | Sources/ElasticShapeView.swift:105 | `Int(x)` of a non-negative value is the whole part |
| ElasticShape.GridSizeFor | Sources/ElasticShapeView.swift:105 | the grid size is the number of whole 10-point cells across and down the frame |
| ElasticShape.ShapeView.SetFrame | Sources/ElasticShapeView.swift:103-108 | the frame observer sets the grid size for the new frame and rebuilds both buffers; edge, uniforms, shift and touch are unchanged |
| ElasticShape.ShapeView.constructor | Sources/ElasticShapeView.swift:112-121 | a new view has edge right, the default uniforms, zero shift and touch, and buffers for its frame |
| ElasticShape.TrapFree | Sources/ElasticShapeView.swift:145-165 | every `UInt16` value `createBuffers` computes (both conversions, both loop bounds, the cell count and, per cell, the row offset, the base vertex, each index and the slot) is in range |
| ElasticShape.FitsUInt16 | Sources/ElasticShapeView.swift:145-165 | the closed form of the size condition: both sizes below 65535, at most 65535 cells and at most 65536 vertices |
| ElasticShape.Grid | Sources/ElasticShapeView.swift:147-154 | the reference vertex list: rows of grid points, each row left to right |
| ElasticShape.MeshIndices | Sources/ElasticShapeView.swift:155-167 | the reference index list: the six indices of each cell, cells in row-major order |
| ElasticShape.FitsUInt16IffTrapFree | Sources/ElasticShapeView.swift:145-165 | the closed-form size condition holds exactly when no `UInt16` conversion, addition or multiplication of `createBuffers` overflows |
| ElasticShape.CellFitsUInt16 | Sources/ElasticShapeView.swift:158-165 | under the size condition every value computed for a cell fits in `UInt16` |
| ElasticShape.ShapeView.CreateBuffers | Sources/ElasticShapeView.swift:143-172 | the vertex buffer is the row-major grid and the index buffer the six indices of every cell |
| ElasticShape.BuildVertices | Sources/ElasticShapeView.swift:147-154 | the vertex loop appends the grid points row by row |
| ElasticShape.GridLength | Sources/ElasticShapeView.swift:147-154 | the vertex array has `(xRes+1)*(yRes+1)` entries |
| ElasticShape.GridAt | Sources/ElasticShapeView.swift:147-154 | entry `y*(xRes+1)+x` is grid point (x, y) |
| ElasticShape.BuildIndices | Sources/ElasticShapeView.swift:155-167 | the index loop turns an array of zeros into the indices of all cells in row-major order |
| ElasticShape.FillRow | Sources/ElasticShapeView.swift:157-166 | the inner loop writes the cells of one row after the rows already filled and leaves every later slot alone |
| ElasticShape.FillCell | Sources/ElasticShapeView.swift:158-165 | one step of the inner loop extends the filled prefix by the cell's six indices and leaves every later slot alone |
| ElasticShape.WriteCell | Sources/ElasticShapeView.swift:158-165 | the loop body writes the six indices of one cell at its slot and leaves every other slot, before and after, alone |
| ElasticShape.CellIndices | Sources/ElasticShapeView.swift:158-165 | every cell contributes six indices |
| ElasticShape.MeshIndicesLength | Sources/ElasticShapeView.swift:155 | the index array has `xRes*yRes*6` entries |
| ElasticShape.IndexCountIsLength | Sources/ElasticShapeView.swift:204 | the draw call's index count is the length of the index array |
| ElasticShape.ShapeView.DrawIndexCount | Sources/ElasticShapeView.swift:204 | the index count drawn is the whole index buffer |
| ElasticShape.MeshIndicesAt | Sources/ElasticShapeView.swift:159-165 | cell (x, y) owns slots `idx*6 .. idx*6+5` with `idx = y*xRes+x` |
| ElasticShape.SlotsDisjoint | Sources/ElasticShapeView.swift:159 | different cells have different slot numbers |
| ElasticShape.SlotsCover | Sources/ElasticShapeView.swift:155-167 | every position of the index array belongs to some cell |
| ElasticShape.CellCorners | Sources/ElasticShapeView.swift:158-165 | the triangles are (top-left, top-right, bottom-left) and (top-right, bottom-right, bottom-left) of the cell in the vertex grid |
| ElasticShape.MeshIndicesInRange | Sources/ElasticShapeView.swift:155-167 | every index is below the vertex count |
| ElasticShape.IndicesFitUInt16 | Sources/ElasticShapeView.swift:145-167 | under the size condition every index is a `UInt16` below the vertex count |

## Left out

- The UIDynamics engine (collision, resistance, springs, gravity) is a platform simulation that is not part of this model. The model keeps the parameters the plugin sets. The positions the simulation produces are inputs of `Update`.
- Metal: the device, command queue and pipeline (`registerShaders`), texture loading (`setUpTexture`), buffer allocation and `draw`. These are GPU and foreign calls. The buffers are kept as the sequences that would be copied into them.
- ElasticShape.BuildVertices: vertices are the grid coordinates (x, y), not the `Float` pair (x/xRes, y/yRes), so the `Float` division is not modelled. That division is 0/0 when `xRes` or `yRes` is 0.
- The `shift` observer's normalisation into the uniform (`shift.x/width`, `-shift.y/height`), the touch normalisation in `draw`, the `foldAlpha` and `overlayColor` observers, and the overlay alpha and shadow opacity in `update`. These are floating-point cosmetics. `ShapeView.shift` and `touchPosition` are plain fields.
- The `device` guard of `createBuffers`: the model assumes a Metal device exists.
- ElasticShape.ShapeView.constructor, SetFrame, CreateBuffers: these require the size condition `FitsUInt16`. Swift traps when the `UInt16` arithmetic overflows, and `FitsUInt16IffTrapFree` shows the condition is exactly the absence of a trap.
- `takeSnapshot`, `hitTest`, the layer shadow settings, `context.hide/unhide` and `clean`: UIKit and host calls with no logic of their own.
- The Hero host's `end`, `cancel` and `update(progress:)` are a returned `HostCall`. The `Double` conversion of the progress is not modelled.
- ElasticPlugin.Plugin.Animate: requires that no behaviours exist yet (`dynamics == None`). The host animates a plugin once per transition, and the model does not cover a second `animate` on the same instance.
- ElasticShape.ShapeView: the uniform's `position` and `shift` fields stay at their defaults, because the `shift` observer and `draw`, which write them, are left out as above. `Update`'s unchanged `viewState` therefore says only that the flags and fold alpha are kept.
- ElasticShape.ShapeView.constructor: the grid size is taken from the frame, which relies on UIKit running the overridden `frame` setter from inside `super.init(frame:device:)`. Without that, the `(1, 1)` default would stay and the first mesh would have one cell.
- ElasticPlugin.Plugin.Animate: requires a claimed view and recognizer when there is a frame. The source would crash on the nil recognizer when it reads the touch location and adds the pan target, and the host never gets there, because it animates only plugins whose `canAnimate` returned true.
- `DynamicItem.bounds` and `transform` are read only by the physics engine.
