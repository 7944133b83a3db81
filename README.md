# Noita_demo core in Dafny

This project models the Rust core of the falling-sand demo Noita_demo. It covers the shared atom grid of `src/atoms.rs` and the demo programs built on it, and proves properties of each. There is one Dafny module per source file. The groups are:

- **Cell-grid automaton.** `Grid`, `Atoms`, `FallingSandBasic`, `LetSleepingAtomsLie`.
  - The world is a class over a row-major `array` of cells.
  - Each pass scans the grid from the bottom row up.
  - A move is a swap with the first free target, stated as a permutation of the cells.
  - Sleeping atoms are left untouched. Swaps wake the atoms they move, and a sleep count and percentage are maintained.
- **Chemistry.** `AcidFire` (acid, fire, smoke and burning) and `BoilToil` (boiling, poisoning and fire lifetimes).
  - In `AcidFire`, a reaction pass reacts each pair of neighbouring cells exactly once.
  - In `BoilToil`, no atom takes part in two reactions in one pass.
- **Collider extraction and the physics bridge.** `Physics`, `PhysicsBridge`, `OptimizingPhysicsBridge`.
  - A flood fill finds pairwise disjoint regions of solid cells.
  - Bounds are computed over point sets.
  - Polygons go through the source's ear-clipping loop. Its orientation test makes the working copy wind clockwise, so its convexity test rejects every corner of a triangle (see Findings).
- **Level tooling.** `LevelEditor`, `LevelGeneration`, `LoadingLevels`.
  - Brush painting and flood fill, with undo and redo.
  - Level cycling and the laboratory level builder.
  - Loading and saving level data, proved as a round trip.
- **Netcode and gameplay.**
  - Netcode:
    - `BadNetworks` (network presets, reliable delivery and congestion control).
    - `SortaWorkingNetworking` (input buffer, predictions and packet queues).
    - `RollbackPerformance` (tick advance, rollback and replay).
    - `NondeterminismAndYou` (a deterministic LCG and a desync check).
    - `NetworkedMultiplayerWeb` (message queues and latency).
    - `NetworkingStats` (RTT, loss and bandwidth statistics).
  - Gameplay:
    - `NetworkedMonster` (monster AI).
    - `PewPewPew` (weapons and projectiles).
    - `FundingFound` (currency, crates and a shop).
    - `SpellcastingPerks` (spells and perks).
    - `BackInMotion` (animation controller and character).
  - `Magic` models the spell effects of `src/magic.rs`.
  - `Common` holds `Option`, a real-valued `Vec2` and a few helpers.

Modelling conventions:

- Randomness: every random draw of the source (`rand::random`, `gen_range`, `gen_bool`) is a parameter of the operation that uses it. Where a loop makes one draw per cell, the draws are a function of the cell. The contracts hold for every choice of draws.
- `f32` and `f64` become `real`. Square roots, `normalize`, `sin` and `cos` are parameters or avoided by comparing squared lengths.
- Integer casts that truncate or round are written out (`Common.Trunc`, `Common.Round`).
- The 64-bit LCG of `nondeterminism_and_you.rs` runs on `bv64`, so its wrap-around is exact.
- Bevy systems that mutate resources are methods of classes whose fields are those resources. Their `ensures` tie the new state to a specification function of the old state, and the lemmas about those functions state what the demo promises.
- An out-of-bounds cell reads as empty (`is_empty`, `src/atoms.rs:168-170`).

## Model

| member | source | states |
|---|---|---|
| Common.Trunc | examples/loading_levels.rs:370-371 | a float-to-integer cast rounds toward zero: the result is within one of the value and on the zero side of it |
| Common.Round | examples/boil_toil.rs:326-327 | rounding gives an integer within one half of the value |
| Common.PushBoundedKeeps | examples/sorta_working_networking.rs:156-161 | a push onto a bounded history keeps it within its cap, grows it by one unless full, ends with the new entry, and drops only the oldest |
| Grid.IndexInjective | src/atoms.rs:146-152 | two in-bounds coordinates with the same position are the same coordinates |
| Grid.SwapCoordsPermutes | examples/falling_sand_basic.rs:60-65 | swapping two cells by coordinates never changes the multiset of cells |
| Grid.BottomUpScan | examples/falling_sand_basic.rs:109-116 | the scan lists width·height in-bounds cells, from the bottom row up and left to right within a row |
| Atoms.GetIndex | src/atoms.rs:146-152 | a position exactly for in-bounds coordinates, and that position is y·width + x below width·height |
| Atoms.GetAtom | src/atoms.rs:154-156 | an atom exactly for in-bounds coordinates, the one stored at that position |
| Atoms.IsEmpty | src/atoms.rs:168-170 | every out-of-bounds cell counts as empty; an in-bounds cell is empty exactly when it holds Empty |
| Atoms.FirstEmpty | src/atoms.rs:450-481 | the first candidate offset whose cell is empty: all earlier candidates are occupied, and it is `|offs|` when none is empty |
| Atoms.MoveTarget | src/atoms.rs:172-178 | a chosen target is an in-bounds index holding Empty |
| Atoms.MoveEffect | src/atoms.rs:172-178 | a movement attempt either changes nothing or is exactly one swap with an in-bounds Empty cell, flagging both cells |
| Atoms.MoveChosen | src/atoms.rs:450-465 | the move is the swap with the first empty candidate |
| Atoms.MovePermutes | src/atoms.rs:172-178 | a move keeps the multiset of atoms |
| Atoms.BottomRowSandStays | src/atoms.rs:450-465 | because out-of-bounds cells count as empty, sand on the bottom row chooses the cell below the world and never moves |
| Atoms.IgniteAllOnlyBurns | src/atoms.rs:490-520 | fire's ignition pass only turns burnable cells into burning copies of themselves |
| Atoms.StepSkips | src/atoms.rs:377-391 | `update_atom` leaves the world as it is at flagged cells, Empty cells and cells outside the world |
| Atoms.StepKeepsSettled | src/atoms.rs:377-409 | one step never clears a flag, and an atom on a flagged cell stays there (or only catches fire) |
| Atoms.MoveKeepsSettled | src/atoms.rs:172-178 | a move keeps every flag and every atom on a flagged cell |
| Atoms.ScanOrder | src/atoms.rs:190-215 | the pass visits all width·height in-bounds cells, bottom row first, each row right to left |
| Atoms.RunStepsKeepsSettled | src/atoms.rs:190-215 | over any run of steps a flag already set stays set, and the atom on that cell stays there (at most set alight) |
| Atoms.RunStepsAppend | src/atoms.rs:199-213 | running two lists of cells in turn is running their concatenation |
| Atoms.NoDoubleMove | src/atoms.rs:190-215 | a cell flagged after the first k cells of a run keeps its flag and its atom (at most set alight) to the end of the run |
| Atoms.PassNoDoubleMove | src/atoms.rs:190-215 | in a real pass, from cleared flags over the whole scan, a cell flagged at any point keeps its flag and its atom to the end of the pass, so no atom moves twice |
| Atoms.CheckReaction | src/atoms.rs:601-617 | a reaction exactly for Fire+Water (Steam, 3.0), Acid+Water (Poison) and Fire+Sand (Smoke, 2.0), in either order |
| Atoms.CheckReactionSymmetric | src/atoms.rs:601-617 | the reaction table is symmetric in its two arguments |
| Atoms.CellReactions | src/atoms.rs:551-570 | each gathered reaction starts at the cell, ends at an in-bounds neighbour, and carries the table's products for the pair |
| Atoms.CollectReactions | src/atoms.rs:544-572 | each gathered reaction joins two in-bounds cells and carries the table's products for their contents |
| Atoms.PlaceInColumnEffect | src/atoms.rs:574-592 | one column of the placement search writes at most one cell, which was empty, lies in that column and the rows around the reaction, and receives the product |
| Atoms.PlaceProductOnlyIntoEmpty | src/atoms.rs:574-592 | every cell a product writes was empty and lies in the 3x3 block around the reaction |
| Atoms.OneProductThreeCells | src/atoms.rs:574-592 | since `break` leaves only the inner loop, one Steam product placed in an empty 3x3 world is written into three cells |
| Atoms.ApplyReaction | src/atoms.rs:574-598 | after its products are placed, both reactant cells are reset to the default atom |
| Atoms.Exchange | src/atoms.rs:433-438 | one heat exchange keeps the total of the changes and touches only its two cells |
| Atoms.HeatFromConserves | src/atoms.rs:425-440 | the exchanges of one cell keep the total of the changes |
| Atoms.HeatFromSkipsEmpty | src/atoms.rs:425-440 | the exchanges never change an Empty cell's entry |
| Atoms.HeatChangesBalanced | src/atoms.rs:412-448 | the temperature changes of a heat pass sum to zero and are zero on Empty cells |
| Atoms.WithHeat | src/atoms.rs:444-447 | each atom's temperature is raised by its change and nothing else about it differs |
| Atoms.AtomWorld.constructor | src/atoms.rs:137-144 | a width-by-height world of default atoms with every flag clear |
| Atoms.AtomWorld.SetAtom | src/atoms.rs:162-166 | writes the one in-bounds cell and nothing else, and is a no-op out of bounds |
| Atoms.AtomWorld.SwapAtoms | src/atoms.rs:172-178 | exchanges two in-bounds cells and flags both; a no-op if either is out of bounds |
| Atoms.AtomWorld.ClearUpdated | src/atoms.rs:180-182 | every flag cleared |
| Atoms.AtomWorld.MoveBy | src/atoms.rs:450-481 | the chain of `is_empty` tests and `swap_atoms` is the move to the first empty candidate |
| Atoms.AtomWorld.UpdateSand | src/atoms.rs:450-465 | sand tries down, sideways by its velocity's sign, down-left, down-right, with at most one swap |
| Atoms.AtomWorld.UpdateWater | src/atoms.rs:467-481 | water tries down, then `dir`, then `-dir`, with at most one swap |
| Atoms.AtomWorld.UpdateGas | src/atoms.rs:522-536 | gas tries up, then up-`dir`, then up-`-dir`, with at most one swap |
| Atoms.AtomWorld.IgniteAt | src/atoms.rs:506-516 | one neighbour of a fire catches fire when it can burn and its roll is below 0.01 |
| Atoms.AtomWorld.UpdateFire | src/atoms.rs:490-520 | fire moves like a gas and then tries to ignite its eight neighbours |
| Atoms.AtomWorld.IgniteNeighbours | src/atoms.rs:505-519 | the neighbour loops make one ignition attempt per neighbour, dx outer and dy inner, in the order of NeighbourOffsets |
| Atoms.AtomWorld.IgniteSlot | src/atoms.rs:508-517 | the attempt at neighbour (dx, dy) extends the attempts made so far by exactly that neighbour |
| Atoms.AtomWorld.UpdateAtom | src/atoms.rs:377-409 | the step skips flagged and Empty cells and dispatches on the atom's type |
| Atoms.AtomWorld.UpdateAtoms | src/atoms.rs:190-215 | the pass is the run of steps over the bottom-up, right-to-left scan, starting from cleared flags |
| Atoms.AtomWorld.UpdateAtomsRow | src/atoms.rs:202-204 | one row, right to left, extends the run of steps by exactly that row's cells of the scan |
| Atoms.AtomWorld.ApplyHeatTransfer | src/atoms.rs:412-448 | every atom's temperature rises by its accumulated change from the balanced heat pass |
| Atoms.AtomWorld.ProcessReactions | src/atoms.rs:544-599 | every reacting pair is gathered first and then applied in order |
| Atoms.AtomWorld.FindReactions | src/atoms.rs:548-571 | the collection loops over rows and cells, which change nothing, gather exactly the reactions of every non-empty cell in row-major order |
| Atoms.AtomWorld.FindCellReactions | src/atoms.rs:558-569 | the neighbour loops of one cell gather exactly its reactions with its eight neighbours, dx outer and dy inner |
| Physics.SolidMask | src/physics.rs:62-64 | the mask is true exactly at the solid cells |
| Physics.UnvisitedCells | src/physics.rs:86-97 | the neighbours pushed are all unvisited |
| Physics.UnvisitedSkipsVisited | src/physics.rs:86-97 | once a cell is marked, it is never pushed as its own neighbour |
| Physics.VisitedDisjoint | src/physics.rs:38-60 | a region taken from cells unvisited before a fill is disjoint from every region filled earlier |
| Physics.PushNeighbours | src/physics.rs:86-97 | the stack grows by exactly the in-bounds unvisited neighbours, in loop order |
| Physics.FloodFill | src/physics.rs:66-101 | the fill only adds marks, appends to the region without touching what was there, and the cells it adds are solid, now visited, unvisited before and distinct |
| Physics.FindSolidRegions | src/physics.rs:38-60 | every region kept has at least three distinct solid cells, and the regions are pairwise disjoint |
| Physics.FindTerrainRegions | src/physics.rs:38-60 | over the world's own cells: each region has at least three distinct in-bounds Stone or Sand cells, and regions are pairwise disjoint |
| PhysicsBridge.Get | examples/physics_bridge.rs:50-56 | a cell exactly for in-bounds coordinates, the one stored at that position |
| PhysicsBridge.FirstFree | examples/physics_bridge.rs:180-193 | the first of below, below-left, below-right that is empty, all earlier ones being occupied, or 3 when none is |
| PhysicsBridge.SandStepStays | examples/physics_bridge.rs:174-178 | only Sand moves: any other cell, or a coordinate outside the world, leaves the grid alone |
| PhysicsBridge.SandStepChosen | examples/physics_bridge.rs:180-193 | a grain with a free target empties its own cell and then writes Sand at the first free target |
| PhysicsBridge.SandStepTwoCells | examples/physics_bridge.rs:180-193 | a moving grain changes at most its own cell and its target's |
| PhysicsBridge.SandStepBlocked | examples/physics_bridge.rs:180-193 | a grain blocked on all three sides stays where it is |
| PhysicsBridge.SandStepInside | examples/physics_bridge.rs:180-193 | a grain moving to an in-bounds cell swaps with it, keeping the counts of Sand and Stone and the multiset of cells |
| PhysicsBridge.SandStepFallsOff | examples/physics_bridge.rs:58-62 | a grain whose target is outside the world is erased, since `set` there does nothing: one Sand fewer, Stone unchanged |
| PhysicsBridge.BottomRowSandVanishes | examples/physics_bridge.rs:180-183 | a grain on the bottom row always sees the empty outside below it and vanishes |
| PhysicsBridge.SandStepKeepsStone | examples/physics_bridge.rs:174-194 | a sand step never changes the Stone count and never adds Sand |
| PhysicsBridge.SandPassKeepsStone | examples/physics_bridge.rs:165-172 | a whole pass keeps the Stone count and never adds Sand |
| PhysicsBridge.SolidMask | examples/physics_bridge.rs:25-27 | the mask is true exactly at the Stone and Sand cells |
| PhysicsBridge.Lower | examples/physics_bridge.rs:301-303 | f32 `min` of a bound with a finite value: the infinity gives way to the value |
| PhysicsBridge.Upper | examples/physics_bridge.rs:301-303 | f32 `max` of a bound with a finite value |
| PhysicsBridge.FindBounds | examples/physics_bridge.rs:291-305 | the four bounds enclose every point and each is attained by some point, or stays its starting infinity when there are none |
| PhysicsBridge.BridgeWorld.constructor | examples/physics_bridge.rs:42-48 | a width-by-height world of Empty cells |
| PhysicsBridge.BridgeWorld.Set | examples/physics_bridge.rs:58-62 | writes the one in-bounds cell and does nothing out of bounds |
| PhysicsBridge.BridgeWorld.UpdateSandAtom | examples/physics_bridge.rs:174-194 | the grid after one sand step at (x, y) |
| PhysicsBridge.BridgeWorld.UpdateAtomPhysics | examples/physics_bridge.rs:165-172 | the sand steps over rows from the bottom up, each row left to right |
| PhysicsBridge.BridgeWorld.FindSolidRegions | examples/physics_bridge.rs:230-289 | each region has at least three distinct in-bounds solid cells and regions are pairwise disjoint |
| FallingSandBasic.Get | examples/falling_sand_basic.rs:46-52 | a cell exactly for in-bounds coordinates, the one stored at that position |
| FallingSandBasic.FirstFree | examples/falling_sand_basic.rs:125-150 | the first candidate that is an in-bounds Empty cell, all earlier ones being blocked (here the outside is not free) |
| FallingSandBasic.MoveChosen | examples/falling_sand_basic.rs:125-150 | with no free candidate nothing changes; otherwise the atom swaps with the first free candidate, which held Empty |
| FallingSandBasic.FirstFreeChain | examples/falling_sand_basic.rs:127-133 | the candidate chosen is the one the if-else chain of tests picks |
| FallingSandBasic.MoveChain | examples/falling_sand_basic.rs:127-133 | a move is the if-else chain of conditional swaps |
| FallingSandBasic.SandPriority | examples/falling_sand_basic.rs:126-134 | sand swaps down, else down-left, else down-right, else stays |
| FallingSandBasic.WaterPriority | examples/falling_sand_basic.rs:135-148 | water swaps down, else towards `dir`, else towards `-dir`, else stays |
| FallingSandBasic.StepPermutes | examples/falling_sand_basic.rs:118-152 | a step keeps the multiset of cells |
| FallingSandBasic.StepCounts | examples/falling_sand_basic.rs:118-152 | a step keeps the number of cells of each type |
| FallingSandBasic.PassAppend | examples/falling_sand_basic.rs:109-116 | running two lists of cells in turn is running their concatenation |
| FallingSandBasic.PassPermutes | examples/falling_sand_basic.rs:109-116 | a whole pass keeps the multiset of cells: nothing is created or lost |
| FallingSandBasic.BasicWorld.constructor | examples/falling_sand_basic.rs:38-44 | a width-by-height world of Empty cells |
| FallingSandBasic.BasicWorld.Set | examples/falling_sand_basic.rs:54-58 | writes the one in-bounds cell and does nothing out of bounds |
| FallingSandBasic.BasicWorld.Swap | examples/falling_sand_basic.rs:60-65 | exchanges two in-bounds cells, a no-op if either is outside |
| FallingSandBasic.BasicWorld.UpdateAtom | examples/falling_sand_basic.rs:118-152 | the grid after one step of the atom at (x, y) |
| FallingSandBasic.BasicWorld.UpdateRow | examples/falling_sand_basic.rs:112-114 | the steps of one row, left to right |
| FallingSandBasic.BasicWorld.UpdatePhysics | examples/falling_sand_basic.rs:109-116 | the steps over rows from the bottom up, each left to right |
| LevelEditor.Painted | src/level_editor.rs:238-244 | a painted atom is at rest with its type's mass; fire lives 10 s at 700 degrees, anything else has no lifetime at 20 degrees |
| LevelEditor.DrawWithBrush | src/level_editor.rs:225-248 | exactly the in-bounds cells of the brush square within half the brush size of the centre are painted; every other cell is unchanged |
| LevelEditor.BrushColumn | src/level_editor.rs:232-246 | one column of the brush square paints its cells within the radius, extending the painted region to the start of the next column |
| LevelEditor.BrushCell | src/level_editor.rs:233-245 | cell (x, y) is painted exactly when it lies within half the brush size of the centre; the painted region then reaches the next cell |
| LevelEditor.BrushNextColumn | src/level_editor.rs:231-247 | once a column's rows are done, the painted region is that of the next column's first row |
| LevelEditor.BrushDone | src/level_editor.rs:231-247 | once every column of the square is done, exactly the in-bounds cells within the radius are painted |
| LevelEditor.FillInvInit | src/level_editor.rs:260-261 | the fill's invariant holds with the start on the stack and nothing visited or painted |
| LevelEditor.FillInvSkip | src/level_editor.rs:263-266 | popping an already visited cell keeps the fill's invariant |
| LevelEditor.FillInvReject | src/level_editor.rs:267-269 | popping an unvisited cell outside the world or of another type marks it visited and keeps the invariant |
| LevelEditor.FillInvPaint | src/level_editor.rs:267-283 | popping an unvisited cell of the start's type paints it, pushes its four neighbours and keeps the invariant, the cell being reached from the start by a same-type path |
| LevelEditor.FillInvDone | src/level_editor.rs:250-288 | when the fill's stack is empty, every cell 4-connected to the start through cells of the start's type is painted and every other cell is as before |
| LevelEditor.PaintCount | src/level_editor.rs:270-283 | painting a cell of the target type lowers that type's count by one, which is why the fill terminates |
| LevelEditor.FloodFillArea | src/level_editor.rs:250-288 | the fill at the truncated start position paints exactly the start's 4-connected same-type area, and does nothing outside the world or when the start already has the fill type |
| LevelEditor.BrushAfterKeys | src/level_editor.rs:168-173 | `+` grows the brush up to 20, `-` shrinks it down to 1, and a size in [1, 20] stays there |
| LevelEditor.DigitType | src/level_editor.rs:176-190 | the digits 1 to 5 and only those select a (non-Empty) type |
| LevelEditor.ModeKey | src/level_editor.rs:193-201 | D, E and F and only those select a mode |
| LevelEditor.Editor.constructor | src/level_editor.rs:29-37 | inactive, Stone selected, brush size 3, Draw mode |
| LevelEditor.Editor.Toggle | src/level_editor.rs:101-117 | the editor's activity flips and nothing else about it changes |
| LevelEditor.Editor.EditorInput | src/level_editor.rs:156-223 | an inactive editor changes nothing; an active one applies the brush keys, type and mode keys, then draws, erases or fills at the cursor while the mouse is down |
| LevelEditor.Current | src/level_editor.rs:345 | the atom recorded for a change: the cell's atom, or the default atom outside the world |
| LevelEditor.Snapshot | src/level_editor.rs:344-346 | the state saved for the other stack: the current atom at each change's coordinates, in order |
| LevelEditor.ApplyAgreeing | src/level_editor.rs:351-353 | applying a change list whose entries agree with a grid restores that grid at every touched cell and leaves the rest |
| LevelEditor.ApplyUntouched | src/level_editor.rs:351-353 | applying changes leaves every cell they do not touch |
| LevelEditor.SnapshotTouches | src/level_editor.rs:344-346 | a snapshot touches the same cells as the changes it was taken for |
| LevelEditor.UndoRedoRoundTrip | src/level_editor.rs:339-373 | applying changes and then their snapshot gives back the original grid: redo undoes undo |
| LevelEditor.EditorHistory.constructor | src/level_editor.rs:324-332 | empty stacks and a history cap of 50 |
| LevelEditor.EditorHistory.Undo | src/level_editor.rs:339-355 | with an empty undo stack nothing changes; otherwise the last entry is popped, the current state of its cells pushed onto the redo stack and the entry applied |
| LevelEditor.EditorHistory.Redo | src/level_editor.rs:357-373 | the mirror image of Undo, from the redo stack to the undo stack |
| LevelEditor.EditorHistory.UndoRedo | src/level_editor.rs:334-374 | no keys change nothing; Ctrl+Z alone is one undo and Ctrl+Y alone one redo, each with its full effect on the grid and both stacks; both keys with nothing to undo are one redo; both keys after an undo give back the grid and the redo stack, and leave the snapshot of the undone change on the undo stack |
| LevelGeneration.NextIndex | src/level_generation.rs:367-370 | the next level index is in range, one on, and wraps from the last to 0 |
| LevelGeneration.PrevIndex | src/level_generation.rs:372-379 | the previous level index is in range |
| LevelGeneration.NextPrevInverse | src/level_generation.rs:367-379 | going forward then back, or back then forward, returns to the same level |
| LevelGeneration.NextCycle | src/level_generation.rs:367-370 | k steps forward from level i land on (i + k) mod n |
| LevelGeneration.LevelManager.constructor | src/level_generation.rs:351-363 | starts at level 0 |
| LevelGeneration.LevelManager.GetCurrentLevelType | src/level_generation.rs:381-383 | the type of the current level in the fixed level list |
| LevelGeneration.LevelManager.NextLevel | src/level_generation.rs:367-370 | moves to the next index, wrapping, and returns its type |
| LevelGeneration.LevelManager.PreviousLevel | src/level_generation.rs:372-379 | moves to the previous index, wrapping, and returns its type |
| LevelGeneration.WaterOnlyIntoEmpty | src/level_generation.rs:244-260 | the water pass changes only Empty cells, each into a still water atom |
| LevelGeneration.AddWaterFeatures | src/level_generation.rs:244-260 | every Empty cell whose draw falls under the probability becomes water; every other cell is unchanged |
| LevelGeneration.ExperimentAtom | src/level_generation.rs:262-330 | an experiment places only acid, fire, water or sand, and the mixed experiment always places one |
| LevelGeneration.RoomWallsAreStone | src/level_generation.rs:213-229 | every wall cell of a room that fits in the world is Stone after generation |
| LevelGeneration.LabChangesOnlyRoomCells | src/level_generation.rs:208-241 | a cell generation changes lies in a room that fits in the world, on its wall or in its experiment square |
| LevelGeneration.RoomOfCell | src/level_generation.rs:208-211 | the rooms tile the world: an in-room cell's room is its coordinates divided by the room size |
| LevelGeneration.GenerateLaboratoryLevel | src/level_generation.rs:203-242 | every in-bounds cell ends as the laboratory rule for its room, wall and experiment says |
| LevelGeneration.BuildRoom | src/level_generation.rs:210-239 | one room is built and no cell of any other room changes |
| LevelGeneration.BuildWalls | src/level_generation.rs:213-229 | exactly the room's wall cells become Stone |
| LevelGeneration.AddExperiment | src/level_generation.rs:262-330 | exactly the experiment square is written, each cell by its experiment's rule |
| Magic.TotalCostBounds | src/magic.rs:70-95 | every perk costs between 5 and 35 mana, so n perks cost between 5n and 35n |
| Magic.TotalCostAppend | src/magic.rs:110-114 | the cost of a perk list is additive over concatenation |
| Magic.TotalCost3 | src/magic.rs:110-114 | a three-perk spell costs the sum of its three perks |
| Magic.NewSpell | src/magic.rs:110-120 | a new spell holds its perks, costs their summed cost, has a 1 s cooldown not yet running, and no cast position or caster yet |
| Magic.NewSpellCastable | src/magic.rs:122-124 | a new spell can be cast exactly when the mana covers its cost |
| Magic.ExampleSpellCosts | src/magic.rs:433-459 | the eight example spells cost 18, 45, 35, 47, 42, 36, 38 and 30 mana |
| Magic.UpdateEffect | src/magic.rs:258-268 | a timed effect's duration runs down by dt; an untimed one is unchanged |
| Magic.UpdateKeepsAlive | src/magic.rs:270-278 | untimed effects stay alive; a timed effect stays alive exactly when its duration exceeded dt |
| Magic.TickEffects | src/magic.rs:169-173 | the kept effects are no more than before and all alive |
| Magic.TickEffectsMembers | src/magic.rs:169-173 | an effect is kept exactly when it is the update of an earlier effect and still alive; untimed effects are always kept |
| Magic.PerkEffect | src/magic.rs:206-241 | each perk creates at most one effect |
| Magic.PerkEffectsCount | src/magic.rs:206-241 | the effects created are one per damage, area, fire, poison or explosion perk |
| Magic.SpellInstance.constructor | src/magic.rs:148-158 | a new instance of the spell at rest at the origin, no lifetime used, no effects or children |
| Magic.SpellInstance.CreateEffects | src/magic.rs:206-241 | the perks' effects are appended in perk order, and two fresh children per Multiply perk, each a new instance of the same spell at this position, the pairs moving along the two directions; nothing else changes |
| Magic.SpellInstance.CollectPerks | src/magic.rs:207-240 | the perk loop yields the old effects followed by the perks' effects, and the old children followed by one fresh pair per Multiply perk |
| Magic.SpellInstance.ApplyPerk | src/magic.rs:208-233 | a Multiply perk adds one fresh pair of children and no effect; any other perk adds its own effect and no child |
| Magic.SpellInstance.SpawnPair | src/magic.rs:226-232 | the Multiply arm makes two fresh instances of the spell at this position, moving at 100 along the first and then the second direction |
| Magic.GrownPair | src/magic.rs:224-232 | a further Multiply perk extends the child list by one pair, keeping the children before it |
| Magic.PerkEffectsSnoc | src/magic.rs:207-223 | the effects of a perk list followed by one perk are the list's effects followed by that perk's effect |
| Magic.Cast | src/magic.rs:126-132 | casting records the position and caster, starts the cooldown and returns a fresh instance of the updated spell |
| Magic.ToU32 | src/magic.rs:328-329 | the float-to-u32 cast rounds a non-negative value down and sends a negative one to 0 |
| Magic.Regen | src/magic.rs:328-329 | regenerated mana never exceeds the maximum and does not fall when the regeneration is non-negative |
| Magic.Cooldown | src/magic.rs:333 | the cooldown runs down by dt and stops at 0 |
| Magic.MagicUser.constructor | src/magic.rs:292-303 | 100 of 100 mana, regeneration 5, the two starting spells, the first selected |
| Magic.MagicUser.Update | src/magic.rs:323-336 | mana regenerates up to the maximum and every spell's cooldown runs down, never below 0; nothing else changes |
| Magic.MagicUser.CastSelected | src/magic.rs:338-399 | with no spells, too little mana or no cursor nothing happens; otherwise the selected spell's cost is paid, the spell is cast at the cursor and an instance returned |
| OptimizingPhysicsBridge.Area | examples/optimizing_physics_bridge.rs:112-119 | the triangle areas `point_in_triangle` compares are never negative |
| OptimizingPhysicsBridge.CornersInTriangle | examples/optimizing_physics_bridge.rs:112-119 | each corner of a triangle counts as inside it |
| OptimizingPhysicsBridge.Prev | examples/optimizing_physics_bridge.rs:43 | the previous vertex index, wrapping from 0 to the last |
| OptimizingPhysicsBridge.Next | examples/optimizing_physics_bridge.rs:44 | the next vertex index, wrapping from the last to 0 |
| OptimizingPhysicsBridge.ReverseMultiset | examples/optimizing_physics_bridge.rs:33-35 | reversing the polygon keeps its vertices |
| OptimizingPhysicsBridge.ChainReverse | examples/optimizing_physics_bridge.rs:70-78 | the shoelace sum of a reversed vertex chain is the negation of the original's |
| OptimizingPhysicsBridge.WindingReverse | examples/optimizing_physics_bridge.rs:70-78 | reversing a polygon negates its winding sum |
| OptimizingPhysicsBridge.IsCounterClockwise | examples/optimizing_physics_bridge.rs:70-78 | the loop's answer is true exactly when the winding sum is positive |
| OptimizingPhysicsBridge.WorkingOrientation | examples/optimizing_physics_bridge.rs:32-35 | the working polygon has the input's vertices and a non-negative shoelace sum, and is the input itself when `is_counter_clockwise` holds for it |
| OptimizingPhysicsBridge.IsEar | examples/optimizing_physics_bridge.rs:80-104 | the loop's answer is true exactly when the vertex is convex and no other vertex lies in its triangle |
| OptimizingPhysicsBridge.FirstEar | examples/optimizing_physics_bridge.rs:40-59 | a found ear index is in range and is an ear |
| OptimizingPhysicsBridge.FirstEarIs | examples/optimizing_physics_bridge.rs:40-59 | the search finds the first ear after which it breaks |
| OptimizingPhysicsBridge.FirstEarNone | examples/optimizing_physics_bridge.rs:40-64 | with no ear from the start index on, the search finds nothing |
| OptimizingPhysicsBridge.RemoveAt | examples/optimizing_physics_bridge.rs:55 | removing a vertex shortens the polygon by one |
| OptimizingPhysicsBridge.TriangulateCount | examples/optimizing_physics_bridge.rs:37-65 | each triangle uses up one vertex, so a polygon of n ≥ 3 vertices gives at most n − 2 triangles and at least two vertices remain |
| OptimizingPhysicsBridge.TriangulateVertices | examples/optimizing_physics_bridge.rs:46-50 | every triangle's corners are vertices of the polygon |
| OptimizingPhysicsBridge.ClipStep | examples/optimizing_physics_bridge.rs:52-57 | clipping one ear records its triangle and continues on the polygon without that vertex |
| OptimizingPhysicsBridge.EarClippingTriangulation | examples/optimizing_physics_bridge.rs:24-68 | fewer than three points give no triangles; otherwise the loop gives the ear-clipping triangulation of the working polygon |
| OptimizingPhysicsBridge.EarClippingProperties | examples/optimizing_physics_bridge.rs:24-68 | the triangulation of n points has at most n − 2 triangles, all cornered at input points |
| OptimizingPhysicsBridge.TriangleWinding | examples/optimizing_physics_bridge.rs:70-78 | the shoelace sum of a triangle is minus twice its signed area, so a positive sum means a clockwise triangle with y up |
| OptimizingPhysicsBridge.TriangleNeverClipped | examples/optimizing_physics_bridge.rs:31-35 | as written, no triangle of either orientation is clipped: the working copy never turns left, and `is_convex` demands a left turn |
| OptimizingPhysicsBridge.TriangleNoEar | examples/optimizing_physics_bridge.rs:80-110 | a triangle that does not turn left has no ear at any corner, since `is_convex` needs a strict left turn |
| OptimizingPhysicsBridge.TriangleOneEar | examples/optimizing_physics_bridge.rs:37-57 | a triangle that turns left is clipped at corner 0 into exactly one triangle of its three points, turning left |
| OptimizingPhysicsBridge.WorkingIntended | examples/optimizing_physics_bridge.rs:32-35 | corrected: the working polygon has the input's vertices and a non-positive shoelace sum, and is the input itself when it already winds counter-clockwise |
| OptimizingPhysicsBridge.TriangleClippedIntended | examples/optimizing_physics_bridge.rs:24-68 | corrected: a non-degenerate triangle gives exactly one triangle, cornered at its three points and turning left |
| OptimizingPhysicsBridge.CalculateAabb | examples/optimizing_physics_bridge.rs:137-155 | the box of no points is all zeros; otherwise the box contains every point and each side is attained by a point |
| OptimizingPhysicsBridge.NewCollider | examples/optimizing_physics_bridge.rs:129-134 | a collider holds the triangulation of its points and a box containing them all |
| LetSleepingAtomsLie.ClampAxis | examples/let_sleeping_atoms_lie.rs:75-91 | one coordinate of the bounds check: below 0 goes to 0, at or past the bound to bound − 1, otherwise it is kept |
| LetSleepingAtomsLie.PositionStep | examples/let_sleeping_atoms_lie.rs:72-91 | corrected step: with bounds of at least 1 the new position is inside them, and each in-range coordinate of the target is taken as is |
| LetSleepingAtomsLie.AsWrittenEscapesBounds | examples/let_sleeping_atoms_lie.rs:75-91 | as written, a move left out of the world with y in range ends at x = −1, because the y check's else branch overwrites the x clamp; the corrected step gives x = 0 |
| LetSleepingAtomsLie.AsWrittenDropsMove | examples/let_sleeping_atoms_lie.rs:75-91 | as written, a step whose y is clamped keeps the old x even when the target x is in range (50 instead of 51); the corrected step advances x |
| LetSleepingAtomsLie.SleepingAtom.constructor | examples/let_sleeping_atoms_lie.rs:50-59 | awake, at rest, no sleep time, last position its start |
| LetSleepingAtomsLie.SleepingAtom.Update | examples/let_sleeping_atoms_lie.rs:61-115 | Empty or sleeping atoms are untouched; others take the gravity, (corrected) bounds and friction step, and an unmoved atom that can sleep falls asleep after more than 1 s still; it never reports a move |
| LetSleepingAtomsLie.SleepingAtom.Move | examples/let_sleeping_atoms_lie.rs:69-94 | the physics part of the update moves the atom to the (corrected) clamped position and sets the bounced velocity with friction, and touches nothing else |
| LetSleepingAtomsLie.SleepingAtom.WakeUp | examples/let_sleeping_atoms_lie.rs:117-120 | awake with the sleep timer reset, nothing else changed |
| LetSleepingAtomsLie.SleepingCountIndices | examples/let_sleeping_atoms_lie.rs:293-299 | the sleeping count is the number of sleeping atoms, at most the number of atoms |
| LetSleepingAtomsLie.NewRow | examples/let_sleeping_atoms_lie.rs:154-165 | one row of a new world: a fresh, distinct, awake atom per column at the cell's coordinates and of its terrain type |
| LetSleepingAtomsLie.SleepingWorld.constructor | examples/let_sleeping_atoms_lie.rs:150-175 | one fresh awake atom per cell at its coordinates, of the terrain type, and no active cells |
| LetSleepingAtomsLie.SleepingWorld.IsEmpty | examples/let_sleeping_atoms_lie.rs:246-248 | a cell is empty exactly when it is outside the world or holds Empty |
| LetSleepingAtomsLie.SleepingWorld.SwapAtoms | examples/let_sleeping_atoms_lie.rs:250-265 | two in-bounds cells exchange atoms, both are woken and become active; out of bounds nothing changes |
| LetSleepingAtomsLie.SleepingWorld.GetSleepingStats | examples/let_sleeping_atoms_lie.rs:293-299 | the total cells, the sleeping count, and the sleeping percentage (none for an empty world, where the source divides by zero) |
| LetSleepingAtomsLie.SleepingStatsBounds | examples/let_sleeping_atoms_lie.rs:293-299 | the sleeping count is at most the total and the percentage lies in [0, 100] |
| LetSleepingAtomsLie.PercentBound | examples/let_sleeping_atoms_lie.rs:293-299 | a share of at most all of a positive total, as a percentage, lies in [0, 100] |
| AcidFire.CanBurnExactly | examples/acid_fire.rs:47-69 | an element can burn exactly when it is Sand or Fire, the two with non-zero flammability |
| AcidFire.NewAtom | examples/acid_fire.rs:83-92 | a new atom is at rest at its position, at its element's temperature, with full health and no lifetime |
| AcidFire.TemperatureEffects | examples/acid_fire.rs:144-164 | only fire and acid are affected by the temperature step |
| AcidFire.UpdateAtom | examples/acid_fire.rs:94-142 | Empty atoms are untouched; others stay within bounds of at least 1 after their step and keep a lifetime they had |
| AcidFire.ReactWith | examples/acid_fire.rs:166-261 | a reaction yields at most one product and moves neither atom |
| AcidFire.ReactSymmetric | examples/acid_fire.rs:169-257 | reacting b with a mirrors reacting a with b |
| AcidFire.FireMeetsWater | examples/acid_fire.rs:170-187 | fire meeting water goes out, the water is untouched, and one rising smoke puff appears at their midpoint |
| AcidFire.AcidMeetsStone | examples/acid_fire.rs:189-216 | stone loses 15 health per second and crumbles to sand at 0; the acid loses 10 per second |
| AcidFire.AcidMeetsSand | examples/acid_fire.rs:238-255 | sand loses 25 health per second and vanishes at 0; the acid is untouched |
| AcidFire.FireMeetsSand | examples/acid_fire.rs:218-236 | sand ignites (600 degrees, 5 s) exactly when the draw falls below 6·dt |
| AcidFire.UnlistedPairsInert | examples/acid_fire.rs:257 | every other pair reacts not at all |
| AcidFire.EmptyInert | examples/acid_fire.rs:169-257 | a pair with an Empty cell never reacts |
| AcidFire.CellPairs | examples/acid_fire.rs:357-386 | a cell's pairs go from its own index to larger in-bounds indices |
| AcidFire.ScanPairs | examples/acid_fire.rs:348-385 | every scanned pair starts at a visited cell and goes to a larger index |
| AcidFire.PairStepEmpty | examples/acid_fire.rs:352-354 | a pair with an Empty side changes nothing |
| AcidFire.ReactAllAppend | examples/acid_fire.rs:348-385 | reacting two lists of pairs in turn is reacting their concatenation |
| AcidFire.ReactAllFromEmpty | examples/acid_fire.rs:352-354 | pairs starting at an Empty cell change nothing |
| AcidFire.ScanRowsScan | examples/acid_fire.rs:348-385 | the row-by-row loops visit the pairs in row-major order |
| AcidFire.WholeScan | examples/acid_fire.rs:348-385 | the whole row scan is the whole row-major scan |
| AcidFire.ScanPairsIncreasing | examples/acid_fire.rs:348-385 | the scan's pairs are strictly increasing, so no pair is reacted twice |
| AcidFire.ScanPairsComplete | examples/acid_fire.rs:348-385 | every pair of adjacent in-bounds cells is scanned, under the smaller index |
| AcidFire.ScanPairsExactlyOnce | examples/acid_fire.rs:344-394 | a whole pass reacts each couple of neighbouring cells exactly once, smaller index first |
| AcidFire.PlacedAtom | examples/acid_fire.rs:396-423 | a placed atom is fire at 700 degrees living 8 s, smoke at 100 degrees, or its element's temperature, at full health |
| AcidFire.AddAtom | examples/acid_fire.rs:396-423 | an atom is written only at an in-bounds cell that is Empty, or burnable when fire is placed; otherwise nothing changes |
| AcidFire.AddProductsOnlyReplaces | examples/acid_fire.rs:391-393 | placing products only fills Empty cells or sets burnable cells alight |
| AcidFire.Cleanup | examples/acid_fire.rs:322-341 | a live or Empty atom is untouched; a dead atom keeps its health while changing element |
| AcidFire.CleanupSettles | examples/acid_fire.rs:322-341 | two cleanups empty every dead atom, and after that cleanup changes nothing |
| AcidFire.ReactionTimer | examples/acid_fire.rs:309-320 | reactions run exactly when the timer has run down, which resets it to 50 ms |
| AcidFire.UpdateAll | examples/acid_fire.rs:311-314 | every atom takes its own step |
| AcidFire.CleanupAll | examples/acid_fire.rs:322-341 | every atom is cleaned up |
| AcidFire.WorldStep | examples/acid_fire.rs:308-342 | after a frame the timer is positive and every dead atom is Empty, smoke or water |
| AcidFire.WorldStepBetweenReactions | examples/acid_fire.rs:308-342 | a frame whose timer has not run down only moves and cleans up |
| AcidFire.ReactiveWorld.constructor | examples/acid_fire.rs:281-306 | one new atom per cell at its coordinates, of the terrain type, and the timer at 0 |
| AcidFire.ReactiveWorld.Update | examples/acid_fire.rs:308-342 | the world and timer after one frame step |
| AcidFire.ReactiveWorld.UpdateAtoms | examples/acid_fire.rs:311-314 | every atom takes its own step |
| AcidFire.ReactiveWorld.CleanupDead | examples/acid_fire.rs:322-341 | every atom is cleaned up |
| AcidFire.ReactiveWorld.ProcessReactions | examples/acid_fire.rs:344-394 | the reaction pass: the scan's pair reactions, then the products placed |
| AcidFire.ReactiveWorld.AddAtomAtPosition | examples/acid_fire.rs:396-423 | the cells after the placement rule |
| BoilToil.BoilingPoints | examples/boil_toil.rs:71-77 | only water and acid boil below 1000 degrees, and water boils before acid, which boils before every other substance |
| BoilToil.NewAtom | examples/boil_toil.rs:91-100 | a new atom has the given substance and position, no velocity, no lifetime, and its substance's temperature and density as mass |
| BoilToil.ThermalEffects | examples/boil_toil.rs:152-169 | steam never cools below 20 degrees and condenses to water at 20 degrees with no lifetime once it reaches 25; fire loses dt of a lifetime that defaults to 10; other atoms are unchanged |
| BoilToil.UpdateAtom | examples/boil_toil.rs:102-150 | an Empty atom is left alone; any other atom ends inside bounds of at least 1 by 1 |
| BoilToil.Cleanup | examples/boil_toil.rs:278-283 | after the clean-up a fire atom has positive lifetime (or none), and only expired fire is emptied |
| BoilToil.CanReactPairs | examples/boil_toil.rs:171-177 | reactivity is symmetric and holds exactly for fire with water and acid with water |
| BoilToil.EmptyNeverReacts | examples/boil_toil.rs:171-177 | an Empty atom reacts with nothing, so an atom that has reacted cannot react again |
| BoilToil.ProductAtom | examples/boil_toil.rs:185-192 | a product has the given substance at the reaction site; steam rises with a 5 second lifetime at 150 degrees, poison has no lifetime at 22 degrees |
| BoilToil.Products | examples/boil_toil.rs:184-193 | the product list has the given count, each built from its own random draws |
| BoilToil.FireBoilsWater | examples/boil_toil.rs:182-199 | fire and water (either order) are both emptied and yield three steam atoms at the first atom's position with lifetime 5 and temperature 150 |
| BoilToil.AcidPoisonsWater | examples/boil_toil.rs:202-218 | acid and water (either order) are both emptied and yield two poison atoms at the first atom's position with temperature 22 and no lifetime |
| BoilToil.UnreactivePairsInert | examples/boil_toil.rs:220-227 | any other pair leaves both atoms unchanged and yields nothing |
| BoilToil.React | examples/boil_toil.rs:179-228 | the reaction method returns exactly the reaction function's result |
| BoilToil.NeighbourPairs | examples/boil_toil.rs:300-318 | every neighbour pair joins the scanned cell to a different cell inside the grid |
| BoilToil.ScanRows | examples/boil_toil.rs:290-320 | the row-major scan produces only valid, distinct-cell pairs |
| BoilToil.ReactAllAppend | examples/boil_toil.rs:290-320 | reacting the pairs of two concatenated scans equals reacting the first and then the second |
| BoilToil.NeighbourPairsStep | examples/boil_toil.rs:303-317 | each neighbour offset adds one reaction step when the neighbour is in the grid and nothing otherwise |
| BoilToil.PairStepOnce | examples/boil_toil.rs:311-314 | one reaction step keeps each atom in at most one reaction and leaves every reacted atom empty |
| BoilToil.ReactAllOnce | examples/boil_toil.rs:286-320 | over a whole pass no atom reacts twice and every atom that reacted is empty |
| BoilToil.ReactAllReactions | examples/boil_toil.rs:286-320 | a pass makes at most one reaction per pair checked and at most three products per reaction |
| BoilToil.AddAtom | examples/boil_toil.rs:325-337 | a product is stored at its rounded cell exactly when that cell is inside the grid and empty; otherwise nothing changes |
| BoilToil.AddProductsOnlyEmpty | examples/boil_toil.rs:320-323 | placing the products only overwrites empty cells, and only with one of the products |
| BoilToil.PassReactsOnce | examples/boil_toil.rs:286-323 | in a full reaction pass no atom takes part in two reactions |
| BoilToil.UpdateAll | examples/boil_toil.rs:267-270 | every atom is updated in place by the single-atom update |
| BoilToil.CleanupAll | examples/boil_toil.rs:278-283 | every atom is cleaned up by the single-atom rule |
| BoilToil.WorldStep | examples/boil_toil.rs:265-284 | a world step keeps the grid size, leaves a positive cooldown, and no fire with expired lifetime survives it |
| BoilToil.ChemicalWorld.constructor | examples/boil_toil.rs:240-263 | the grid holds one new atom per cell at its coordinates, stone in the bottom eight rows and empty above |
| BoilToil.ChemicalWorld.Update | examples/boil_toil.rs:265-284 | the grid and cooldown become exactly the world step of the old state |
| BoilToil.ChemicalWorld.UpdateAtoms | examples/boil_toil.rs:267-270 | the grid becomes the per-atom update of the old grid |
| BoilToil.ChemicalWorld.CleanupExpired | examples/boil_toil.rs:278-283 | the grid becomes the clean-up of the old grid |
| BoilToil.ChemicalWorld.ProcessReactions | examples/boil_toil.rs:286-323 | the grid becomes the reaction pass of the old grid: scan, react in place, then place the products |
| BoilToil.ChemicalWorld.ReactRow | examples/boil_toil.rs:290-319 | after row y the grid and products equal reacting all pairs of rows 0 to y |
| BoilToil.ChemicalWorld.ReactCellAt | examples/boil_toil.rs:291-318 | after cell x of a row the state equals reacting the pairs of that row up to x |
| BoilToil.ChemicalWorld.ReactCell | examples/boil_toil.rs:292-318 | an empty cell is skipped; otherwise the state equals reacting the cell with its eight neighbours |
| BoilToil.ChemicalWorld.ReactNeighbours | examples/boil_toil.rs:299-317 | the neighbour loops react the cell with each of its eight neighbours in order |
| BoilToil.ChemicalWorld.ReactNeighbourRow | examples/boil_toil.rs:300-316 | row dy of the neighbours extends the reactions so far by exactly that row's in-grid neighbour pairs |
| BoilToil.ChemicalWorld.ReactNeighbourAt | examples/boil_toil.rs:300-316 | after neighbour n the state equals reacting the first n+1 neighbour pairs |
| BoilToil.ChemicalWorld.ReactNeighbour | examples/boil_toil.rs:304-315 | an in-grid neighbour is a different cell and gets one reaction step; an out-of-grid neighbour changes nothing |
| BoilToil.ChemicalWorld.AddAtomAtPosition | examples/boil_toil.rs:325-337 | the grid becomes the placement of the atom into its cell if that cell is in the grid and empty |
| LoadingLevels.NewLevelData | examples/loading_levels.rs:60-70 | a new level has the given name and size, no atoms, the spawn at (50, 50), the description "A level" and difficulty 1 |
| LoadingLevels.AddAtom | examples/loading_levels.rs:72-74 | adding an atom appends exactly that atom and changes nothing else |
| LoadingLevels.FromLevelData | examples/loading_levels.rs:159-178 | loading keeps name, size, description and difficulty, puts the player at the spawn, and places each atom, in order, at its cell's coordinates with its type |
| LoadingLevels.ToLevelData | examples/loading_levels.rs:364-381 | saving keeps name, size, description and difficulty, makes the spawn the player's position, and keeps one atom per loaded atom |
| LoadingLevels.SaveAfterLoad | examples/loading_levels.rs:159-178 | saving a just-loaded level gives back the level data it was loaded from |
| LoadingLevels.LoadAfterSave | examples/loading_levels.rs:369-373 | loading a saved level gives back the level exactly when every atom lies on a whole non-negative cell, since the usize casts truncate |
| LoadingLevels.LevelManager.constructor | examples/loading_levels.rs:189-202 | the manager starts with nothing loaded, at the first level of the given map |
| LoadingLevels.LevelManager.LoadLevel | examples/loading_levels.rs:285-293 | a known name loads that level; an unknown name reports not found and leaves the current level unchanged |
| LoadingLevels.LevelManager.NextLevel | examples/loading_levels.rs:299-304 | the index advances cyclically and the level at the new index is loaded |
| LoadingLevels.LevelManager.PreviousLevel | examples/loading_levels.rs:306-315 | the index steps back cyclically, from the first to the last, and the level at the new index is loaded |
| LoadingLevels.NextThenPrevious | examples/loading_levels.rs:299-315 | next followed by previous returns to the same index and reloads the same level |
| BadNetworks.NewPacket | examples/bad_networks.rs:116-127 | a new packet is unsent, sized by its data, and asks for an acknowledgement exactly when it is critical |
| BadNetworks.RemoveAllCounts | examples/bad_networks.rs:177 | removing an id leaves no occurrence of it and keeps every other id's occurrences |
| BadNetworks.FindById | examples/bad_networks.rs:180 | the search returns a kept packet with that id, and nothing exactly when no kept packet has it |
| BadNetworks.FindByIdFirst | examples/bad_networks.rs:180 | the search returns the first packet with that id |
| BadNetworks.TimedOutPrefix | examples/bad_networks.rs:191-198 | the count covers packets older than the threshold and stops at the first that is not |
| BadNetworks.TimedOutPrefixUnique | examples/bad_networks.rs:191-198 | that count is the only one with those two properties: the longest timed-out prefix |
| BadNetworks.DuePrefix | examples/bad_networks.rs:367-384 | the count covers deliveries due by now and stops at the first that is not |
| BadNetworks.DuePrefixUnique | examples/bad_networks.rs:367-384 | that count is the longest due prefix |
| BadNetworks.AckReliability | examples/bad_networks.rs:175-184 | an acknowledgement removes its id from the waiting list and touches neither the kept packets nor the seen sequence numbers |
| BadNetworks.ReliabilitySystem.constructor | examples/bad_networks.rs:150-160 | the system starts with nothing kept, seen or waiting and an RTT estimate of 0.1 |
| BadNetworks.ReliabilitySystem.SendPacket | examples/bad_networks.rs:162-173 | the packet is always returned stamped with now; only an acknowledgement-requiring one is kept and its id appended to the waiting list |
| BadNetworks.ReliabilitySystem.ReceiveAck | examples/bad_networks.rs:175-184 | the new state is the acknowledgement step of the old one |
| BadNetworks.ReliabilitySystem.CheckTimeouts | examples/bad_networks.rs:186-211 | exactly the longest prefix of kept packets older than twice the RTT estimate is removed and returned, in order; nothing else changes |
| BadNetworks.ReliabilitySystem.ProcessReceivedPacket | examples/bad_networks.rs:213-224 | a packet is accepted exactly when its sequence number is new, and the number is recorded either way |
| BadNetworks.ProcessTwice | examples/bad_networks.rs:213-224 | a repeated packet is always rejected the second time |
| BadNetworks.CongestionSteps | examples/bad_networks.rs:251-271 | loss restarts the window at 1 with a threshold of at least 1, an acknowledgement adds one, and both keep the window at least 1 with exactly one phase flag set |
| BadNetworks.AcksGrow | examples/bad_networks.rs:259-271 | k acknowledgements add exactly k to the window, keep the threshold, and leave slow start once the window reaches it |
| BadNetworks.CongestionControl.constructor | examples/bad_networks.rs:239-249 | congestion control starts healthy, in slow start, with window 1 and threshold 64 |
| BadNetworks.CongestionControl.OnPacketLoss | examples/bad_networks.rs:251-257 | the state becomes the loss step of the old state and stays healthy |
| BadNetworks.CongestionControl.OnAckReceived | examples/bad_networks.rs:259-271 | the state becomes the acknowledgement step of the old state and stays healthy |
| BadNetworks.CongestionControl.GetSendWindow | examples/bad_networks.rs:273-275 | the send window is the congestion window and at least 1 |
| BadNetworks.DeliverAllAccepts | examples/bad_networks.rs:364-388 | every accepted packet was delivered uncorrupted, had a sequence number not seen before, is now recorded, and no two accepted packets share one |
| BadNetworks.NetworkSimulator.constructor | examples/bad_networks.rs:290-300 | the simulator starts with an empty queue, fresh subsystems, zero counters and time 0 |
| BadNetworks.NetworkSimulator.ReceivePackets | examples/bad_networks.rs:364-388 | exactly the prefix of the queue due by now is removed, and the packets returned and the subsystems' new states are those of delivering that prefix in order |
| BadNetworks.NetworkSimulator.SetConditions | examples/bad_networks.rs:403-408 | only the conditions change |
| BadNetworks.PresetsOrdered | examples/bad_networks.rs:24-94 | latency and loss rise strictly from Excellent to Terrible, and Satellite has the highest latency of all presets |
| BadNetworks.BadNetworksDemo.constructor | examples/bad_networks.rs:423-437 | the demo starts under the Good preset, at position 1 of the condition list |
| BadNetworks.BadNetworksDemo.CycleNetworkCondition | examples/bad_networks.rs:439-454 | the position advances cyclically over the six presets and the simulator gets that preset, with its queue and time unchanged |
| SortaWorkingNetworking.NewInput | examples/sorta_working_networking.rs:55-64 | a new input is for the given player and tick, with no movement, no buttons and timestamp 0 |
| SortaWorkingNetworking.NetworkConnection.constructor | examples/sorta_working_networking.rs:89-99 | a connection starts with both queues empty, RTT 0.1, no ping sent and a 2% loss rate |
| SortaWorkingNetworking.NetworkConnection.SendPacket | examples/sorta_working_networking.rs:101-106 | the packet is appended to the outgoing queue unless the loss draw falls below the loss rate; nothing else changes |
| SortaWorkingNetworking.NetworkConnection.ReceivePacket | examples/sorta_working_networking.rs:108-110 | the packet is appended to the incoming queue; nothing else changes |
| SortaWorkingNetworking.NetworkConnection.ProcessOutgoingPackets | examples/sorta_working_networking.rs:112-120 | the outgoing queue is returned in FIFO order and left empty |
| SortaWorkingNetworking.NetworkConnection.GetIncomingPackets | examples/sorta_working_networking.rs:122-128 | the incoming queue is returned in FIFO order and left empty |
| SortaWorkingNetworking.NetworkConnection.MeasurePing | examples/sorta_working_networking.rs:130-135 | more than a second after the last ping a ping stamped now is sent (subject to loss) and the ping time becomes now; otherwise nothing changes |
| SortaWorkingNetworking.NetworkConnection.UpdateRtt | examples/sorta_working_networking.rs:137-139 | the RTT becomes the time since the ping's timestamp; the queues are unchanged |
| SortaWorkingNetworking.PingTwice | examples/sorta_working_networking.rs:130-135 | when the first of two pings within a second is due, it is the only one sent (subject to loss) and the ping time becomes its time |
| SortaWorkingNetworking.FirstInputFor | examples/sorta_working_networking.rs:163-165 | the lookup returns a buffered input for that tick, and nothing exactly when none has it |
| SortaWorkingNetworking.FirstInputForEarliest | examples/sorta_working_networking.rs:163-165 | the lookup returns the first buffered input for that tick |
| SortaWorkingNetworking.InputBuffer.constructor | examples/sorta_working_networking.rs:149-154 | a new buffer is empty with the given capacity |
| SortaWorkingNetworking.InputBuffer.AddInput | examples/sorta_working_networking.rs:156-161 | the input is appended, the oldest dropped when over capacity, and it is then the latest input |
| SortaWorkingNetworking.InputBuffer.GetInputForTick | examples/sorta_working_networking.rs:163-165 | returns a buffered input with that tick, or nothing exactly when no buffered input has it |
| SortaWorkingNetworking.InputBuffer.GetLatestInput | examples/sorta_working_networking.rs:167-169 | returns the last input, and nothing exactly when the buffer is empty |
| SortaWorkingNetworking.KeepUpToExactly | examples/sorta_working_networking.rs:197-199 | keeping states up to a tick keeps exactly those with tick at most it, and changes nothing when all qualify |
| SortaWorkingNetworking.FirstStateFor | examples/sorta_working_networking.rs:193-195 | the lookup returns a stored state for that tick, and nothing exactly when none has it |
| SortaWorkingNetworking.PredictionState.constructor | examples/sorta_working_networking.rs:179-184 | a new prediction store is empty with the given capacity |
| SortaWorkingNetworking.PredictionState.AddPrediction | examples/sorta_working_networking.rs:186-191 | the state is appended and the oldest dropped when over capacity |
| SortaWorkingNetworking.PredictionState.GetPrediction | examples/sorta_working_networking.rs:193-195 | returns a stored state with that tick, or nothing exactly when no stored state has it |
| SortaWorkingNetworking.PredictionState.ClearPredictionsAfter | examples/sorta_working_networking.rs:197-199 | the store keeps, in order, exactly the states with tick at most the given one |
| RollbackPerformance.NewInput | examples/rollback_performance.rs:89-96 | a new input is for the given tick with no movement, no jump and no damage |
| RollbackPerformance.NewPlayer | examples/rollback_performance.rs:37-45 | a new player is at rest at its position with 100 health, an empty input buffer and last processed tick 0 |
| RollbackPerformance.ApplyInput | examples/rollback_performance.rs:47-77 | health stays in (0, 100]; without damage health is kept and the player stays at or above the ground line; a hit costs 10 health or respawns the player at (100, 100) with full health |
| RollbackPerformance.InputStep | examples/rollback_performance.rs:133-141 | a player given an input records its tick as processed and pushes it onto a 60-entry history |
| RollbackPerformance.ApplyInputs | examples/rollback_performance.rs:130-142 | players with an input take the input step; players past the end of the inputs are untouched; the count is kept |
| RollbackPerformance.Collide | examples/rollback_performance.rs:154-171 | collisions keep a player's history and last tick and keep health in (0, 100] |
| RollbackPerformance.UpdateProjectile | examples/rollback_performance.rs:231-234 | a projectile's lifetime drops by dt; its velocity and owner are kept |
| RollbackPerformance.Survivors | examples/rollback_performance.rs:144-148 | only projectiles still alive after their update remain, and none is lost while all outlive dt |
| RollbackPerformance.StartPlayers | examples/rollback_performance.rs:108-113 | player i starts at (100 + 150i, 100) |
| RollbackPerformance.InputFor | examples/rollback_performance.rs:195-202 | the replayed input is for the tick: a recorded one if any, otherwise the default input |
| RollbackPerformance.ReplayInputs | examples/rollback_performance.rs:192-204 | one replayed input per player that has a history, each for that tick |
| RollbackPerformance.GameState.constructor | examples/rollback_performance.rs:108-124 | a new state has the given tick and time, the starting players, no projectiles and the two fixed hazards |
| RollbackPerformance.GameState.AdvanceTick | examples/rollback_performance.rs:126-152 | the tick grows by exactly one and the time by dt; players take their inputs then collisions; only live projectiles remain; hazards are kept |
| RollbackPerformance.GameState.CheckCollisions | examples/rollback_performance.rs:154-171 | every player is collided with every hazard; nothing else changes |
| RollbackPerformance.GameState.RollbackToTick | examples/rollback_performance.rs:173-210 | a rollback succeeds exactly when the target is before the current tick; a refused one changes nothing; a successful one ends at the same tick and time with the same number of players |
| RollbackPerformance.AdvanceRecordsInputs | examples/rollback_performance.rs:130-142 | after a tick each player given an input has that input's tick and a 60-bounded history ending with it; the others keep both |
| RollbackPerformance.AdvanceKeepsHealth | examples/rollback_performance.rs:126-171 | a tick keeps every player's health in (0, 100] |
| RollbackPerformance.RollbackStats.constructor | examples/rollback_performance.rs:269-276 | the statistics start at zero |
| RollbackPerformance.RollbackStats.RecordRollback | examples/rollback_performance.rs:278-281 | the rollback count grows by exactly one and the average remains the mean of all recorded distances |
| RollbackPerformance.SumReals | examples/rollback_performance.rs:280 | adding a distance adds it to the sum the average is taken over |
| NondeterminismAndYou.StreamAdd | examples/nondeterminism_and_you.rs:21-25 | m draws followed by n draws leave the seed n + m draws would |
| NondeterminismAndYou.DrawsSplit | examples/nondeterminism_and_you.rs:21-25 | the first m + n values are the first m followed by the first n from the seed m draws later |
| NondeterminismAndYou.Unit | examples/nondeterminism_and_you.rs:27-29 | a draw scaled to a float lies in [0, 1] and is 0 exactly for the zero draw |
| NondeterminismAndYou.AsI32 | examples/nondeterminism_and_you.rs:37 | the i32 reading of a 32-bit draw is in the i32 range, congruent to it modulo 2^32, and negative exactly for draws of at least 2^31 |
| NondeterminismAndYou.RemTrunc | examples/nondeterminism_and_you.rs:37 | Rust's remainder takes the sign of the dividend and is smaller in magnitude than the divisor |
| NondeterminismAndYou.AsWrittenBelowHalf | examples/nondeterminism_and_you.rs:35-38 | as written, a draw below 2^31 lands in [min, max] and agrees with the corrected range |
| NondeterminismAndYou.AsWrittenEscapesRange | examples/nondeterminism_and_you.rs:35-38 | from seed 12345 the third draw is 0xC639_D665, and the range (0, 5) as written gives -1 for it |
| NondeterminismAndYou.Range | examples/nondeterminism_and_you.rs:35-38 | the corrected range lies in [min, max] and is the draw modulo the width of the range, offset by min |
| NondeterminismAndYou.DeterministicRandom.constructor | examples/nondeterminism_and_you.rs:17-19 | a generator starts at its seed |
| NondeterminismAndYou.DeterministicRandom.NextU32 | examples/nondeterminism_and_you.rs:21-25 | the seed advances one wrapping 64-bit step and the value is bits 16 to 47 of the new seed |
| NondeterminismAndYou.DeterministicRandom.NextF32 | examples/nondeterminism_and_you.rs:27-29 | the seed advances one step and the float is the new draw scaled to [0, 1] |
| NondeterminismAndYou.DeterministicRandom.NextBool | examples/nondeterminism_and_you.rs:31-33 | the seed advances one step and the result holds exactly when the scaled draw is below the probability, so never for probability 0 and always above 1 |
| NondeterminismAndYou.DeterministicRandom.RangeI32 | examples/nondeterminism_and_you.rs:35-38 | the seed advances one step and the result is the corrected range of the draw (the non-negative remainder), within [min, max] |
| NondeterminismAndYou.Lockstep | examples/nondeterminism_and_you.rs:12-39 | two generators with the same seed return the same values and stay on the same seed |
| NondeterminismAndYou.SimulationMode.constructor | examples/nondeterminism_and_you.rs:49-55 | a simulation starts at tick 0 with a fresh generator on the given seed |
| NondeterminismAndYou.SimulationMode.AdvanceTick | examples/nondeterminism_and_you.rs:91-93 | the tick grows by exactly one |
| NondeterminismAndYou.SimulationMode.RandomParticleCount | examples/nondeterminism_and_you.rs:83-89 | the count is between 5 and 10, from one generator draw through the corrected range in deterministic mode and from the outside draw otherwise |
| NondeterminismAndYou.NewParticle | examples/nondeterminism_and_you.rs:106-114 | a new particle is at rest at its position with mass 1 and tick 0 |
| NondeterminismAndYou.ApplyForce | examples/nondeterminism_and_you.rs:116-119 | only the velocity changes, by force over mass times dt |
| NondeterminismAndYou.UpdateParticle | examples/nondeterminism_and_you.rs:121-143 | the particle ends within x in [0, 800] and y at least 0, records the tick, and bounces off the floor at half speed |
| NondeterminismAndYou.UpdateAll | examples/nondeterminism_and_you.rs:237-245 | every particle takes the particle update |
| NondeterminismAndYou.SelfSynced | examples/nondeterminism_and_you.rs:253-278 | a particle list never reads as desynced from itself |
| NondeterminismAndYou.NondeterminismDemo.constructor | examples/nondeterminism_and_you.rs:165-178 | the demo starts with both simulations on seed 12345 at tick 0, one deterministic and one not, no particles and no desync |
| NondeterminismAndYou.NondeterminismDemo.CheckDesync | examples/nondeterminism_and_you.rs:253-278 | a desync is flagged when the particle counts differ or some pair is more than one unit apart in position or velocity; the flag is never cleared here |
| NondeterminismAndYou.NondeterminismDemo.ResyncSimulations | examples/nondeterminism_and_you.rs:280-291 | the nondeterministic side becomes a copy of the deterministic one and the flag is cleared, so the two agree |
| NondeterminismAndYou.NondeterminismDemo.Update | examples/nondeterminism_and_you.rs:229-251 | both ticks grow by one, every particle is updated, and every 60th tick the desync check runs and the sync tick is recorded |
| NetworkedMultiplayerWeb.EstimateMessageSize | examples/networked_multiplayer_web.rs:304-313 | every message is at least the 16-byte header; exactly pings, pongs, leaves, empty joins and empty game states are header only; a game state adds 32 bytes per entity |
| NetworkedMultiplayerWeb.FirstPingTime | examples/networked_multiplayer_web.rs:227-229 | a ping time is found exactly when some ping was recorded, and it is the time of the first one |
| NetworkedMultiplayerWeb.WebNetworkManager.constructor | examples/networked_multiplayer_web.rs:129-144 | a manager starts with no connections, empty queues and statistics, and the room "default_room" |
| NetworkedMultiplayerWeb.WebNetworkManager.ConnectToRoom | examples/networked_multiplayer_web.rs:146-204 | the room id is set; WebRTC appends one connected peer with an open data channel; WebSocket sets an open fallback on the room's URL; WebTransport changes nothing else |
| NetworkedMultiplayerWeb.WebNetworkManager.SendMessage | examples/networked_multiplayer_web.rs:206-219 | the message is queued, a ping is also recorded with its send time, and the upload estimate grows by the message's size |
| NetworkedMultiplayerWeb.WebNetworkManager.ReceiveMessage | examples/networked_multiplayer_web.rs:221-240 | the message is recorded and the download estimate grows by its size; a pong with some ping recorded pushes the time since the first ping onto the ten-sample RTT history |
| NetworkedMultiplayerWeb.Recent | examples/networked_multiplayer_web.rs:257 | the cleaned-up log keeps exactly the entries sent less than 30 s ago: every kept entry is recent and every recent entry is kept |
| NetworkedMultiplayerWeb.RecentSingle | examples/networked_multiplayer_web.rs:257 | one entry is kept exactly when it was sent less than 30 s ago |
| NetworkedMultiplayerWeb.RecentAppend | examples/networked_multiplayer_web.rs:257 | cleaning a log is cleaning each of its parts and joining them in order, so the kept entries stay in their original order, duplicates included |
| NetworkedMultiplayerWeb.WebNetworkManager.Update | examples/networked_multiplayer_web.rs:242-262 | an open WebSocket whose ping interval has passed records the time and sends one ping; then the sent log keeps only entries under 30 s old and both bandwidth estimates decay by 5%; nothing else changes |
| NetworkedMultiplayerWeb.WebNetworkManager.AverageRtt | examples/networked_multiplayer_web.rs:315-321 | the average is 0 with no samples and otherwise the mean of the samples |
| NetworkedMultiplayerWeb.NewPlayer | examples/networked_multiplayer_web.rs:402-411 | a new player has the given id, name and position, no velocity, 100 health and update time 0 |
| NetworkedMultiplayerWeb.WebMultiplayerDemo.constructor | examples/networked_multiplayer_web.rs:415-436 | the demo starts with no remote players, no chat and time 0 |
| NetworkedMultiplayerWeb.WebMultiplayerDemo.ProcessNetworkMessage | examples/networked_multiplayer_web.rs:475-512 | another player's update moves that known remote player or appends a new one, keeping ids unique; chat is pushed onto a ten-entry history; other messages change nothing |
| NetworkingStats.MinOf | examples/networking_stats.rs:72 | the running minimum is at most every sample and is one of them |
| NetworkingStats.MaxFromZero | examples/networking_stats.rs:73 | the running maximum, from its initial 0, is at least every sample and is 0 or one of them |
| NetworkingStats.Window | examples/networking_stats.rs:65-69 | the window holds the hundred newest samples, or all of them while there are fewer |
| NetworkingStats.WindowSnoc | examples/networking_stats.rs:65-69 | recording a sample pushes it onto the hundred-sample window |
| NetworkingStats.MinSnoc | examples/networking_stats.rs:72 | a new sample updates a non-empty list's minimum by one comparison |
| NetworkingStats.MaxSnoc | examples/networking_stats.rs:73 | a new sample updates the maximum from 0 by one comparison |
| NetworkingStats.RecordStep | examples/networking_stats.rs:65-73 | one more sample moves the window, the running minimum (taking the sample when it is the first) and the maximum on by one step each |
| NetworkingStats.PushSample | examples/networking_stats.rs:65-77 | the sample ends the window, which keeps the hundred newest, and the average is the window's mean |
| NetworkingStats.NetworkStats.constructor | examples/networking_stats.rs:31-48 | all counters start at zero with no samples |
| NetworkingStats.NetworkStats.RecordPacketSent | examples/networking_stats.rs:50-53 | one more packet sent and its size added to the bytes sent; nothing else changes |
| NetworkingStats.NetworkStats.RecordPacketReceived | examples/networking_stats.rs:55-58 | one more packet received and its size added to the bytes received; nothing else changes |
| NetworkingStats.NetworkStats.RecordPacketLost | examples/networking_stats.rs:60-62 | one more packet lost; nothing else changes |
| NetworkingStats.NetworkStats.RecordRtt | examples/networking_stats.rs:64-86 | the sample is pushed onto the hundred-sample window, the average stays the window's mean, and the minimum and maximum cover every sample recorded |
| NetworkingStats.NetworkStats.UpdateRates | examples/networking_stats.rs:88-104 | once at least a second has passed (and dt is positive) the rates become the sent counts over the elapsed time and the four counters reset; otherwise nothing changes |
| NetworkingStats.SumOf | examples/networking_stats.rs:77 | the loop adds up exactly the samples' sum |
| NetworkingStats.LossRate | examples/networking_stats.rs:106-113 | the loss rate is a percentage, 0 exactly when nothing was lost and 100 exactly when every packet counted was lost |
| NetworkingStats.NewPacket | examples/networking_stats.rs:150-159 | a new packet has the given fields, is not received and not compressed |
| NetworkingStats.GetRtt | examples/networking_stats.rs:165-167 | a round trip exists exactly for a received packet and is the receive time minus the send time |
| NetworkingStats.MarkReceived | examples/networking_stats.rs:161-163 | only the receive time changes, and the round trip is then that time minus the send time |
| NetworkingStats.NetworkOptimizer.constructor | examples/networking_stats.rs:182-192 | every optimisation is on and both packet rates start at 30 |
| NetworkingStats.NetworkOptimizer.OptimizePacket | examples/networking_stats.rs:194-200 | with compression on the packet is marked compressed and its size becomes 70% rounded down, nothing else changing; with it off the packet is unchanged |
| NetworkingStats.NetworkOptimizer.AdjustRateBasedOnStats | examples/networking_stats.rs:211-222 | under adaptive control a fast clean link raises the target rate by 10% up to 60, a slow or lossy one lowers it by 10% down to 10, and otherwise it stays |
| NetworkingStats.Quality | examples/networking_stats.rs:296-309 | the quality is Excellent exactly below 50 ms and 1% loss, and Poor exactly when not below 200 ms and 5% loss |
| NetworkingStats.ConnectionQualityOf | examples/networking_stats.rs:296-309 | the monitor grades its statistics' mean round trip and loss rate, so a lossless link under 50 ms is Excellent |
| NetworkedMonster.NearestTarget | examples/a_networked_monster.rs:236-245 | no target exactly when no living player is within the detection radius; otherwise a living player in range that is no farther than any other, and strictly nearer than every earlier one |
| NetworkedMonster.FindEntity | examples/a_networked_monster.rs:471-472 | the lookup finds the first entity with the id, and nothing exactly when none has it |
| NetworkedMonster.MonsterAI.constructor | examples/a_networked_monster.rs:60-71 | a monster starts idle with detection radius 150, attack range 30, damage 25, cooldown 2, speed 80 and no known target position |
| NetworkedMonster.MonsterAI.Update | examples/a_networked_monster.rs:73-234 | only the monster's velocity changes in the entity; the cooldown runs down except when an attack starts; idle takes up the nearest target; chasing attacks, follows, or gives up; attacking stands still until its timer ends; fleeing runs from its threat until out of sight |
| NetworkedMonster.AttackImpliesInSight | examples/a_networked_monster.rs:171-181 | a target within attack range is within the detection radius, since the range is the smaller |
| NetworkedMonster.NetworkSimulation.constructor | examples/a_networked_monster.rs:282-288 | a simulated link starts with the given latency and loss and an empty queue |
| NetworkedMonster.NetworkSimulation.SendMessage | examples/a_networked_monster.rs:290-295 | the message is queued unless the loss draw falls below the loss rate |
| NetworkedMonster.NetworkSimulation.ReceiveMessages | examples/a_networked_monster.rs:297-309 | the queue is split into the returned messages, all arrived, and the rest, whose first has not arrived |
| NetworkedMonster.ReceiveUnique | examples/a_networked_monster.rs:297-309 | there is only one split of the queue meeting that contract: exactly the longest arrived prefix is returned |
| NetworkedMonster.NetworkedMonsterDemo.ProcessNetworkMessage | examples/a_networked_monster.rs:471-484 | only the first entity with the message's id changes, and only if the local side lacks authority over it: it takes the message's state and predicts ahead by the latency |
| PewPewPew.WeaponTables | examples/pew_pew_pew.rs:57-105 | every weapon has positive magazine, fire interval, damage and speed; only the shotgun fires more than one projectile; spreads are under a right angle; the shotgun's volley does the most damage and the rocket launcher the most per projectile |
| PewPewPew.AngleOffsetFan | examples/pew_pew_pew.rs:164-168 | a multi-projectile volley fans evenly from minus to plus the spread angle, first to last |
| PewPewPew.NewProjectile | examples/pew_pew_pew.rs:22-31 | a new projectile has the given position, velocity, damage and owner, lifetime 0 and a 3 second limit |
| PewPewPew.UpdateProjectile | examples/pew_pew_pew.rs:33-44 | the projectile ages by dt and moves by its velocity; it survives exactly while inside the 500-unit box and younger than its limit |
| PewPewPew.ProjectileExpires | examples/pew_pew_pew.rs:33-44 | an update that takes the lifetime to its limit always removes the projectile |
| PewPewPew.Weapon.constructor | examples/pew_pew_pew.rs:127-142 | a new weapon has a full magazine of its type's size and was never fired |
| PewPewPew.Weapon.Fire | examples/pew_pew_pew.rs:148-182 | a weapon that cannot fire returns nothing and is unchanged; otherwise it uses one round, records the time, and returns its type's number of projectiles, each the shot for its place in the fan |
| PewPewPew.ShotDamage | examples/pew_pew_pew.rs:176-177 | every projectile fired carries the weapon's damage, starts at the muzzle and has not aged |
| PewPewPew.FireTwice | examples/pew_pew_pew.rs:144-157 | firing twice at the same instant yields nothing the second time and uses at most one round |
| PewPewPew.Player.constructor | examples/pew_pew_pew.rs:195-207 | a player starts with a full pistol, shotgun and machine gun, three fresh and distinct weapons, the pistol in hand, and 100 health |
| PewPewPew.Player.SwitchWeapon | examples/pew_pew_pew.rs:217-221 | the weapon in hand becomes the index when it is in range and otherwise stays |
| PewPewPew.Player.ReloadCurrentWeapon | examples/pew_pew_pew.rs:223-226 | the weapon in hand is refilled to its magazine size |
| PewPewPew.PlayerShoot | examples/pew_pew_pew.rs:326-331 | the game's projectiles are kept and followed by exactly the shots the weapon in hand fires from the player's position, none when it cannot fire; that weapon uses one round and records the time when it fires and is unchanged otherwise, and its magazine size is kept |
| PewPewPew.NewTarget | examples/pew_pew_pew.rs:238-245 | a new target has 50 of 50 health and size 20 |
| PewPewPew.TakeDamage | examples/pew_pew_pew.rs:247-250 | health drops by the damage, and the target is destroyed exactly when the damage reaches its health |
| PewPewPew.TakeDamageTwice | examples/pew_pew_pew.rs:247-250 | two hits have the effect of one hit of their total |
| PewPewPew.TargetVersusWeapons | examples/pew_pew_pew.rs:238-250 | a new target survives one pistol shot and falls to a second, and one sniper shot destroys it |
| FundingFound.RarityOrdered | examples/funding_found.rs:31-49 | rarer loot is worth strictly more and drops strictly less often, from Common to Legendary |
| FundingFound.NewItem | examples/funding_found.rs:94-105 | a new item has the given type and rarity; currency comes in its rarity's value, anything else singly |
| FundingFound.NewItemValue | examples/funding_found.rs:107-109 | a new item is worth its rarity's value, squared for currency |
| FundingFound.RarityFor | examples/funding_found.rs:136-142 | a draw is Legendary exactly below the legendary chance, Common exactly at or above the uncommon chance, and any other rarity only below its own chance |
| FundingFound.LootCrate.constructor | examples/funding_found.rs:122-154 | a new crate is closed, 40 by 40, with 3 to 5 items, each built from its own type and rarity draws |
| FundingFound.LootCrate.Open | examples/funding_found.rs:156-161 | opening marks the crate open and starts a one-second timer only if it was closed; the items are kept |
| FundingFound.LootCrate.Update | examples/funding_found.rs:163-170 | an open crate's timer runs down to no less than 0; a closed crate is unchanged |
| FundingFound.LootCrate.CollectItems | examples/funding_found.rs:172-178 | an open crate whose timer has run out hands over all its items and is left empty; otherwise nothing is taken |
| FundingFound.OpenTwice | examples/funding_found.rs:156-161 | opening twice is the same as opening once |
| FundingFound.Player.constructor | examples/funding_found.rs:195-207 | a player starts at level 1 with no currency, experience or items and 100 of 100 health, 20 by 30 |
| FundingFound.Player.AddExperience | examples/funding_found.rs:209-220 | the experience gained is spent in whole steps of the entry level's threshold, each raising the level by one and the maximum health by 10; what remains is below that threshold; health is refilled on any level-up |
| FundingFound.ExperienceAtLevelOne | examples/funding_found.rs:209-220 | from a new player, experience e gives level 1 + e div 100 with e mod 100 left over |
| FundingFound.Player.AddItem | examples/funding_found.rs:222-241 | currency adds its quantity, a health potion heals 25 up to the maximum, a mana potion changes nothing, and anything else is appended to the inventory |
| FundingFound.Player.UseCurrency | examples/funding_found.rs:243-250 | payment succeeds exactly when the purse holds the amount, and only then is it deducted |
| FundingFound.Catalogue | examples/funding_found.rs:279-297 | the shop stocks three items: a rare weapon upgrade for 200, a common health potion for 50 and an epic cosmetic for 500 |
| FundingFound.FundingGame.constructor | examples/funding_found.rs:270-308 | the game starts with the given player, the fixed shop stock and no earnings |
| FundingFound.FundingGame.BuyItem | examples/funding_found.rs:356-369 | a purchase succeeds exactly when the index is in the shop and the player can pay; then the cost is paid and the item added, otherwise nothing changes |
| SpellcastingPerks.NewPerk | examples/spellcasting_perks.rs:89-95 | a new perk is of the given kind at level 1 with power 1 |
| SpellcastingPerks.Upgrade | examples/spellcasting_perks.rs:97-100 | an upgrade raises the level by one and makes positive power strictly greater |
| SpellcastingPerks.UpgradeTimesLevel | examples/spellcasting_perks.rs:97-100 | n upgrades raise the level by exactly n, keep the kind, and never lower the power of a non-negative perk |
| SpellcastingPerks.NewSpell | examples/spellcasting_perks.rs:113-125 | a spell keeps its name and perks and costs 10 mana, 0.2 s of casting and 0.5 s of cooldown per perk |
| SpellcastingPerks.SpellCosts | examples/spellcasting_perks.rs:113-125 | a spell costs mana and has a cooldown exactly when it has perks, and its mana cost is 50 times its cast time |
| SpellcastingPerks.SpellPower | examples/spellcasting_perks.rs:144-146 | a spell's power is undefined exactly when it has no perks, and otherwise is the mean of its perks' powers |
| SpellcastingPerks.SpellPowerWithin | examples/spellcasting_perks.rs:144-146 | a spell with perks whose powers all lie in [lo, hi] has its power in [lo, hi] too |
| SpellcastingPerks.FreshSpellPower | examples/spellcasting_perks.rs:144-146 | a spell of new perks has power exactly 1 |
| SpellcastingPerks.SpellBook.constructor | examples/spellcasting_perks.rs:158-180 | a spell book offers all twelve perk kinds, in order, with nothing selected and no spells |
| SpellcastingPerks.SpellBook.AddPerk | examples/spellcasting_perks.rs:182-186 | a new perk of the kind is appended while under four are selected; otherwise nothing changes |
| SpellcastingPerks.SpellBook.RemovePerk | examples/spellcasting_perks.rs:188-192 | an in-range index removes exactly that perk, keeping the others in order; otherwise nothing changes |
| SpellcastingPerks.SpellBook.CreateSpell | examples/spellcasting_perks.rs:194-204 | with no perks selected nothing happens; otherwise the spell of the selected perks is returned and recorded and the selection is cleared |
| SpellcastingPerks.Player.constructor | examples/spellcasting_perks.rs:233-243 | a player starts with 100 of 100 mana, an empty spell book, and no cast or cooldown under way |
| SpellcastingPerks.Player.StartCasting | examples/spellcasting_perks.rs:249-258 | casting starts exactly when the player can cast the spell, which then costs its mana and becomes the spell under way; otherwise nothing changes |
| SpellcastingPerks.Player.UpdateCasting | examples/spellcasting_perks.rs:260-279 | a cast under way accumulates time; when it reaches the spell's cast time it is returned and its cooldown begins with no mana regained; otherwise the cooldown runs down and mana regenerates 10 per second up to the maximum |
| SpellcastingPerks.CastAndFinish | examples/spellcasting_perks.rs:245-279 | a castable spell with perks, cast and updated past its cast time, finishes and leaves a cooldown that blocks casting it again |
| SpellcastingPerks.SpellcastingDemo.constructor | examples/spellcasting_perks.rs:290-296 | the demo starts with a player at (400, 300), full mana, nothing cast and time 0 |
| SpellcastingPerks.SpellcastingDemo.Update | examples/spellcasting_perks.rs:298-313 | time advances by dt, and a spell that finishes is recorded with the player's position |
| BackInMotion.TotalDurationBounds | examples/back_in_motion.rs:42-44 | a sequence whose frames each last between lo and hi lasts between n·lo and n·hi in total |
| BackInMotion.NextFrameStep | examples/back_in_motion.rs:91-100 | the next frame stays in the sequence: one more, or at the last frame back to 0 when looping and staying put otherwise |
| BackInMotion.AnimationController.constructor | examples/back_in_motion.rs:58-67 | a controller starts with no sequences and nothing playing, at frame 0, full speed, facing right |
| BackInMotion.AnimationController.AddSequence | examples/back_in_motion.rs:69-71 | the sequence is stored under its name, replacing any of that name; nothing else changes |
| BackInMotion.AnimationController.Play | examples/back_in_motion.rs:73-81 | a known sequence that is not already playing, or any known one with restart, starts from frame 0; otherwise nothing changes |
| BackInMotion.AnimationController.Update | examples/back_in_motion.rs:83-106 | with a non-empty sequence playing the timer grows by dt times the speed, and when it passes the frame's duration the frame advances and the duration is taken off, which is one frame step from the old frame and timer; otherwise nothing changes |
| BackInMotion.AnimationController.CurrentSpriteIndex | examples/back_in_motion.rs:108-117 | the sprite is the current frame's, or 0 when nothing is playing or the frame is out of range |
| BackInMotion.AnimationController.SetFacing | examples/back_in_motion.rs:119-121 | only the facing changes |
| BackInMotion.AnimationController.SetSpeed | examples/back_in_motion.rs:123-125 | the playback speed becomes the given one, raised to at least 0.1; nothing else changes |
| BackInMotion.Clamp | examples/back_in_motion.rs:178-179 | the clamp lies in [lo, hi], keeps values inside it and sends values outside to the nearer end |
| BackInMotion.MotionController.constructor | examples/back_in_motion.rs:142-154 | a controller starts at rest in the air at its position, with top speeds 200 and 400, friction 0.8, gravity 600 and jump power 250, able to jump |
| BackInMotion.MotionController.ApplyForce | examples/back_in_motion.rs:156-158 | the force is added to the acceleration; nothing else changes |
| BackInMotion.MotionController.Jump | examples/back_in_motion.rs:160-166 | on the ground and able to jump, the vertical velocity becomes minus the jump power and both flags are cleared; otherwise nothing changes |
| BackInMotion.MotionController.Update | examples/back_in_motion.rs:168-189 | gravity in the air, then the acceleration, the clamps and friction give the new velocity, the position moves by it, and the acceleration resets; the vertical speed stays within its top speed and the horizontal speed within its top speed times the friction |
| BackInMotion.MotionController.CheckGroundCollision | examples/back_in_motion.rs:191-200 | at or below the ground line the character is put on it, stops falling and may jump; above it the character is in the air and nothing else changes |
| BackInMotion.StateFor | examples/back_in_motion.rs:319-338 | in the air: jumping while rising, falling otherwise; on the ground: attacking on attack input, else running above 150, walking above 10, idle otherwise; never hurt or dead |
| BackInMotion.CharacterSequences | examples/back_in_motion.rs:213-284 | the character's sequences are each stored under their own name and have frames |
| BackInMotion.StateSequences | examples/back_in_motion.rs:340-353 | every state except Hurt and Dead has a sequence to play |
| BackInMotion.CharacterAnimation | examples/back_in_motion.rs:214-275 | adding the six sequences one after another to a new controller files exactly the character's sequence table, with nothing playing |
| BackInMotion.Character.constructor | examples/back_in_motion.rs:213-284 | a character starts idle, 32 by 32, at rest at its position with its sequences loaded and none playing |
| BackInMotion.Character.Move | examples/back_in_motion.rs:287-302 | the input forces and a jump (only when allowed and standing) feed one motion step; the new position and velocity are that step's, put on the ground line with the fall stopped and jumping re-enabled when it reaches y = 200; the character is never below the ground and is on it exactly when on the line; it faces the last direction pressed, and the rest of the animation is untouched |
| BackInMotion.Character.Animate | examples/back_in_motion.rs:304-316 | the previous state is recorded, the state is the one the motion determines, a changed state plays its sequence from the start and an unchanged one keeps the current sequence, the speed follows the horizontal velocity, and the playing sequence moves on by one frame step at that speed |
| BackInMotion.Character.Update | examples/back_in_motion.rs:286-317 | one update is the movement step (new position, velocity, jump flag, ground line, facing) followed by the animation step (state from the motion, sequence restarted on a change and kept otherwise, speed from the velocity, one frame step) |

## Left out

- Rendering, colours, sprites, UI text, Bevy `setup`/`main` systems, input handlers and `println!` output: presentation only, with no state the core depends on.
- Random draws, which become parameters: the direction coin flips, ignition chances, noise-shaped terrain, jitter and random spawn positions. There is no generator model apart from the LCG of `nondeterminism_and_you.rs`.
- `src/atoms.rs`: the `color`, `friction` and `heat_capacity` tables, the `is_fluid` and `is_gas` classifications (no modelled rule uses them), `apply_gravity`, `apply_velocity_movement`, `apply_particle_interactions` with its force helpers, the gravity, velocity-movement and particle-interaction passes of the `update_atoms` system (its flag clearing and cell scan are modelled, and its heat pass is modelled on its own), and the lifetime countdown at the end of `update_atom`. These are float kinetics outside the discrete grid rules.
- `src/physics.rs`: `create_terrain_colliders` (spawns Rapier bodies), `create_convex_hull` and `orientation` (gift wrapping, which may not terminate on collinear input), `optimize_colliders_with_ear_clipping` (a placeholder), and the rigid-body push and displacement systems. All need the physics engine.
- `src/level_editor.rs`: `setup_level_editor`, `update_editor_cursor` (window and camera), `save_level`/`load_level_editor` (file I/O and serde) and `validate_level`.
- `src/level_generation.rs`: the cave, island, mountain and volcano generators and the `generate_level` dispatch (noise and random draws), plus `load_level` and `level_transition_system` (Bevy commands).
- `src/magic.rs`: `SpellPerk::name`, `SpellInstance::apply_perks` (vector normalisation), the instance movement in `SpellInstance::update` (only the effect retain is modelled), `update_spell_instances`, `spell_collision_detection` and the entity spawning of `cast_spell`.
- `examples/physics_bridge.rs`: `create_atom_terrain`, `create_terrain_colliders`, `atoms_interact_with_rigid_bodies` and `displace_atoms_around_point`. These need the physics engine and circle geometry with square roots.
- `examples/optimizing_physics_bridge.rs`: `create_rapier_collider`, the demo shapes and the performance statistics (timers and the physics engine).
- `examples/let_sleeping_atoms_lie.rs`: `disturb_neighbors`, `SleepingWorld::update` with `handle_active_collisions`, and `add_force_at`. They iterate a `HashSet` whose order is unspecified and take randomised forces.
- `examples/acid_fire.rs` and `examples/boil_toil.rs`: `add_element_at` and `add_substance_at` (random scatter), and the demo reaction scripts.
- `examples/loading_levels.rs`: JSON and file I/O (`to_json`, `from_json`, `save_to_file`, `load_from_file`) and the built-in level builders. Loading takes a level map as a value, and its `HashMap` iteration order is a parameter.
- `examples/bad_networks.rs`: `NetworkSimulator::send_packet`, `simulate_packet_delivery` and `update`, which draw loss, corruption and jitter at random. Also `BadNetworksDemo::update` and `get_packet_delivery_rate`, which only report counters. The back-off print loop in `check_timeouts` has no effect on state.
- `examples/networking_stats.rs`: the square root in the jitter estimate of `record_rtt` (lines 79-85), `get_bandwidth_usage` (string formatting, line 115), `NetworkOptimizer::should_send_packet` (wall-clock rate limiting, line 202) and `NetworkMonitor` (lines 226-300, which drives the rest with random packet losses and jitter).
- `examples/nondeterminism_and_you.rs`: `random_force` (`cos`/`sin` of a drawn angle) and `random_position_offset` (floating-point draws through `next_f32`), `create_particle`, which places particles by those offsets, `apply_random_forces` (line 208 calls a `random_bool` that does not exist) and `get_sync_stats` (a floating-point report).
- `examples/networked_multiplayer_web.rs`: `get_connection_quality` (lines 323-345) and `simulate_incoming_messages` (random traffic), so `WebNetworkManager.Update` leaves out the messages that call would receive. String sizes in `estimate_message_size` are counted in characters, not UTF-8 bytes.
- `examples/a_networked_monster.rs`: the monster's `take_damage`, and the demo's `new`, `update` and `sync_network`. The monsters and players are passed in as values.
- `examples/pew_pew_pew.rs`: `ShootingGame::new` and `ShootingGame::update` (lines 262-324). Target placement needs `cos`/`sin`, respawns draw random distances, and hits use a Euclidean distance. `normalize` and the rotation in `Weapon::fire` are parameters.
- `examples/funding_found.rs`: `FundingGame::update`, which needs rigid-body physics and rectangle intersection (line 319 also mutates a non-`mut` binding). The crates' random loot generation takes its draws as parameters.
- `examples/spellcasting_perks.rs`: `get_description`, `get_spell_combinations`, the input handlers, and the perk colour, description and name tables. `calculate_spell_power` on a spell with no perks divides 0 by 0 in `f32`. The model returns no power there instead of NaN.
- `examples/back_in_motion.rs`: `Character::get_sprite_transform` and the rendering systems.
- BackInMotion.AnimationController.AddSequence: keeps the controller's validity only when the replaced sequence is not the one playing or is still long enough for the current frame. The source does not check this, so a shorter replacement can leave the frame index past the end.
- Fixed-width integers: `u32`, `usize` and `u64` counters (ticks, sequence numbers, currency, experience) are unbounded `nat`s, so their overflow is not modelled. The exceptions are the LCG, which runs on `bv64`, and the `i32` cast and truncating remainder of `range_i32`, written out exactly in `NondeterminismAndYou.RangeAsWritten` only.
- `f32`/`f64` become exact reals, so rounding, NaN and infinities are not modelled. The exception is `PhysicsBridge.Lower`/`Upper`, which start their bounds from an explicit infinity. Square roots, `normalize`, `sin` and `cos` are parameters or avoided by comparing squared lengths.
- LetSleepingAtomsLie.SleepingAtom.Move: computes the corrected bounds check `PositionStep`, not the source's, which lets x leave the world and drops an in-range x move when y is clamped (see Findings).
- LetSleepingAtomsLie.SleepingAtom.Update: moves the atom by the corrected `PositionStep` through `Move`, not by the source's bounds check (see Findings).
- NondeterminismAndYou.DeterministicRandom.RangeI32: returns the corrected `Range` with a non-negative remainder, not the source's `i32` result, which can fall below `min` (see Findings).
- NondeterminismAndYou.SimulationMode.RandomParticleCount: counts through the corrected `Range`, so it does not model the `usize` overflow that the source's negative draw causes (see Findings).
- Wall-clock time (`Instant::now`, `Time`) is a parameter of each operation.
- Several example files do not compile as written. The model follows the evident behaviour of their helper functions, not the broken call sites.

## Findings

| source | as written | input that shows it | evidently intended | confidence | as-written member | corrected member |
|---|---|---|---|---|---|---|
| examples/let_sleeping_atoms_lie.rs:75-91 | the else branch of the y bounds check writes the unclamped target back, undoing the x clamp | position (0, 5), velocity (−10, 0), dt 0.1, bounds 100 × 100: x ends at −1 | the new position stays inside the bounds | not executed | LetSleepingAtomsLie.AsWrittenEscapesBounds | LetSleepingAtomsLie.PositionStep |
| examples/let_sleeping_atoms_lie.rs:75-91 | when y is clamped, only `position.x` clamps are written, so an in-range x keeps its old value | position (50, 0.5), velocity (10, −10), dt 0.1, bounds 100 × 100: ends at (50, 0) instead of (51, 0) | each in-range coordinate takes the target | not executed | LetSleepingAtomsLie.AsWrittenDropsMove | LetSleepingAtomsLie.PositionStep |
| examples/nondeterminism_and_you.rs:35-38 | `min + (next_u32() as i32 % (max - min + 1))` reads draws at or above 2^31 as negative, and the truncating remainder keeps the sign | seed 12345, third draw 0xC639_D665, `range_i32(0, 5)` gives −1, so `random_particle_count` computes 5 + (−1 as `usize`), which overflows (a panic in a debug build, 4 in a release build) | a result in [min, max] | not executed | NondeterminismAndYou.AsWrittenEscapesRange | NondeterminismAndYou.Range |
| examples/optimizing_physics_bridge.rs:70-78 | `is_counter_clockwise` returns `sum > 0` for Σ(x₂−x₁)(y₂+y₁), which is minus twice the signed area, so it is true for clockwise polygons (y up), while `is_convex` (rs:106-110) accepts only left turns | any triangle, e.g. (0, 0), (1, 0), (0, 1): the working copy is (0, 1), (1, 0), (0, 0), and no corner is convex, so no triangle is produced | the working polygon winds counter-clockwise, so a triangle yields itself as one ear | not executed | OptimizingPhysicsBridge.TriangleNeverClipped | OptimizingPhysicsBridge.TriangleClippedIntended |

The triangulation methods keep the orientation test as written; `WorkingIntended` and `TriangleClippedIntended` state the intended orientation.
