# Suika merge-game engine, modelled in Dafny

This project models the engine of a falling-fruit merge game. Fruits of nine ranks are dropped into a walled container. When two fruits of one rank touch, they fuse into one fruit of the next rank and score its value. The game ends when a fruit rests above a deadline line.

The model covers three source files:

- **The tick system** (`systems/Physics.ts`), which runs once per frame in four stages:
  1. It registers the bodies handed over by ADD_BODY events.
  2. It steps the physics world in fixed 1000/60 ms steps, banking the elapsed time and capping it at 250 ms.
  3. It drains the merge queue that the collision handler filled.
  4. It scans every fruit against the line, settles its spawning flag, and dispatches GAME_OVER for each fruit resting above the line.
- **The game component** (`components/Game.tsx`):
  - setting up the world and the collision handler;
  - the drag state machine that creates, moves and drops the next fruit;
  - its spam protection: a 200 ms cooldown and at most 6 spawns in a sliding 1000 ms window;
  - the preview of the next rank;
  - the `onEvent` handler that accumulates the score, the highest rank and the running flag.
- **The rank table and weighted selector** (`constants/game.ts`).

Module layout:

| module | contents |
|---|---|
| `Fruits` | the rank table and `pickWeightedIndex` |
| `Entities` | the values: bodies, keys, pairs, events, the scene and its invariant |
| `Stepper` | the fixed-step accumulator |
| `World` | ADD_BODY registration and the fixed steps |
| `Merge` | the merge-queue drain |
| `Deadline` | the game-over scan |
| `Physics` | class `Engine`, the state the tick system mutates in place, with one method per stage |
| `Spawn` | `clampSpawnX`, `dragSpawnY` and the spam limiter |
| `Session` | what `onEvent` accumulates |
| `Game` | class `Game`, the component with its refs and state |

Matter.js objects have identity: the merge step looks up which entity holds a given body. So every body lives in an arena `map<BodyId, Body>`, and its identity is its `BodyId`. Removed bodies stay in the arena, as removed JavaScript objects stay reachable from collision pairs that still name them.

The source's loops that update variables or state step by step are methods with a `while` or `for` loop, proved against a function of the old state:
- the registration loop, the stepping loop, the drain loop and the scan loop of the tick;
- the selector's two loops (the `reduce` of the weights and the selection);
- the collision handler's loop over the pairs.

The source's collection expressions stay expressions: the window `filter` is the recursive function `Spawn.Recent`, the `Object.keys(...).find` of the merge step is the choice in `Entities.Owner`, and the `map` of the weights is a sequence comprehension in `Fruits.Weights`. The game loop library's delivery of dispatched events to `onEvent` is not source code; the method `Game.Game.Deliver` stands in for it.

Facts about the whole program are lemmas about those functions:
- the scene invariant is kept;
- a body merges at most once per drain;
- for non-negative frame times whose total, with the banked time, stays within the 250 ms cap, a tick's step count and final accumulator do not depend on how the frame time is batched (the scenes can differ, since a split tick drains the merge queue and scans between its steps; past the cap, or with a negative frame time, batching changes the step count);
- the window limit is unreachable;
- the score is the sum of the SCORE_UPDATE amounts.

Where the code behaves otherwise than its comments and the usual account of the game suggest, the model follows the code:

- **Spawn grace.** The scan clears a fruit's spawning flag once its top edge is on or below the line. The test for "more than 30 below the line" sits inside the "above the line" branch, so it can never hold (`Deadline.Settle`, `Deadline.SettleOnlyClears`). No 30-unit grace band is in effect.
- **GAME_OVER count.** GAME_OVER is dispatched once per resting fruit per tick, not once per session. `onGameOver` is called once per GAME_OVER received (`Session.Apply`).
- **Terminal merge.** Two fruits of the last rank vanish, and the merge dispatches neither a score nor a sound (`Merge.MergePairEffect`).
- **Highest rank.** The highest merged rank is raised by `onEvent` on SCORE_UPDATE, not by the merge step (`Session.Apply`).
- **Window limit.** Within one window, the 200 ms cooldown already keeps at most 4 earlier spawns. So the 6-per-window rejection can never be reached (`Spawn.WindowFullUnreachable`).

## Model

| member | source | states |
|---|---|---|
| Fruits.RankTableShape | constants/game.ts:1-86 | nine ranks; radius and score strictly increase with the rank; spawn weights are positive and never increase |
| Fruits.SliceEnd | constants/game.ts:90 | the end of `FRUITS.slice(0, maxIndex + 1)`: maxIndex + 1 for an in-range bound, the whole table for a larger one, never past the table |
| Fruits.Weights | constants/game.ts:90-91 | the weights are exactly the table weights of ranks 0 .. SliceEnd(maxIndex) - 1 |
| Fruits.Selected | constants/game.ts:94-98 | the selector returns -1 on no weights and an index of the weights otherwise |
| Fruits.PickWeightedIndex | constants/game.ts:89-99 | the method with both loops returns Pick(maxIndex, random), the selector applied to random * total |
| Fruits.SelectedIsInterval | constants/game.ts:93-98 | for positive weights and a draw r in [0, total), the result is i exactly when Prefix(i) <= r < Prefix(i + 1); the fallback return is never reached |
| Fruits.SelectedMonotone | constants/game.ts:93-97 | a larger draw never selects a smaller rank |
| Fruits.PickInRange | constants/game.ts:89-99 | with Math.random() in [0, 1) and a bound of at least 0, the rank lies in [0, maxIndex] and in the table |
| Fruits.OpeningOdds | constants/game.ts:89-98 | for the opening bound 3 the total is 100, and ranks 0..3 come from the draws [0,40), [40,65), [65,85), [85,100) |
| Fruits.LargeBoundIsDefault | constants/game.ts:89-92 | any bound of 8 or more selects over the whole table, total weight 119 |
| Fruits.NegativeBoundReturnsNoRank | constants/game.ts:90-98 | a bound of -1 slices nothing and the selector returns -1 |
| Stepper.Elapsed | systems/Physics.ts:25-26 | time.delta when it is a number, one step of 1000/60 ms otherwise |
| Stepper.Charged | systems/Physics.ts:29-33 | the banked time is accumulator + elapsed up to the cap and exactly 250 above it |
| Stepper.StepsCharacterised | systems/Physics.ts:37-41 | the step count and the residue are the unique n and rest with banked == n * dt + rest and 0 <= rest < dt |
| Stepper.StepsExceed | systems/Physics.ts:37-41 | while a whole step is still banked after k steps, the step count exceeds k |
| Stepper.ResidueBelowStep | systems/Physics.ts:37-41 | less than one step is left after the loop, and nothing negative from a non-negative bank |
| Stepper.TickStepBounds | systems/Physics.ts:25-41 | from an accumulator in [0, dt): at most 15 steps; none for a non-positive delta; the residue stays in [0, dt) or keeps a negative bank; steps plus residue add up to the banked time |
| Stepper.BatchingInvariance | systems/Physics.ts:21-41 | below the cap, ticking the frame times one by one takes the same steps and leaves the same accumulator as one tick with their sum |
| Stepper.ThreeFramesOrOne | systems/Physics.ts:25-41 | three 16 ms frames step the world as often (twice) as one 48 ms frame |
| Entities.Owner | systems/Physics.ts:59-64 | the key found holds the body, and one is found exactly when some entity holds it |
| World.Register | systems/Physics.ts:9-19 | registration changes only the entities; every entry was held before or handed by an ADD_BODY; a key no ADD_BODY names keeps its body; every ADD_BODY key holds the body of its last ADD_BODY |
| World.RegisterKeys | systems/Physics.ts:9-19 | keys are only added: earlier keys stay, every ADD_BODY key is present, no other key appears |
| World.RegisterKeepsSceneOk | systems/Physics.ts:9-19 | registering a frame that hands each body once keeps the scene invariant |
| World.Move | systems/Physics.ts:38 | a step changes a body's position, velocity and speed and nothing else |
| World.StepScene | systems/Physics.ts:38 | a step moves exactly the non-static bodies of the world it reports, and keeps the shape of the scene |
| World.StaticBodiesStay | systems/Physics.ts:38 | a static body is never moved by a step |
| World.FruitPairs | components/Game.tsx:98-112 | a pair is queued exactly when it occurs in the event and both its bodies are fruits |
| World.Simulate | systems/Physics.ts:37-41 | n steps keep the shape of the scene; the merge queue only grows, and only by pairs of two fruits |
| World.SameShapeKeepsSceneOk | systems/Physics.ts:37-41 | moving bodies keeps the scene invariant and the pending events in order |
| World.RetouchKeepsOk | components/Game.tsx:276-318 | rewriting a body's motion, position or static flag keeps the scene invariant |
| World.HandOverKeepsOk | components/Game.tsx:258-273 | a fresh fruit put in the world and handed over by ADD_BODY keeps the scene invariant and the pending events in order |
| Merge.Midpoint | systems/Physics.ts:79-80 | the new fruit is equally far from both merged fruits on each axis |
| Merge.MergedBody | systems/Physics.ts:83-102 | the new fruit has the next rank and its radius, stands at the midpoint at rest, is dynamic and unflagged, and spins at (draw - 0.5) * 0.4, which lies in [-0.2, 0.2) for any Math.random() draw |
| Merge.MergePair | systems/Physics.ts:51-118 | an ineligible pair changes nothing and dispatches nothing; no body is lost; a merged flag stays set; an eligible pair ends with both bodies merged |
| Merge.MergePairEffect | systems/Physics.ts:66-118 | an eligible pair flags both bodies, removes their entities and world membership, and leaves every other body alone. Below the last rank it adds one fruit under a new key and dispatches SCORE_UPDATE and "pop". At the last rank it adds nothing and dispatches nothing |
| Merge.MergePairKeepsSceneOk | systems/Physics.ts:66-118 | a merge keeps the scene invariant |
| Merge.DrainPrefix | systems/Physics.ts:46-124 | draining keeps every body identity and the arena invariant |
| Merge.MergedStaysMerged | systems/Physics.ts:57-70 | a body flagged merged stays flagged for the rest of the drain |
| Merge.DrainKeepsSceneOk | systems/Physics.ts:46-124 | draining any prefix of the queue keeps the scene invariant |
| Merge.AtMostOneMergePerBody | systems/Physics.ts:46-124 | once a queued pair merged, no later pair of the same drain that names either body merges |
| Deadline.Settle | systems/Physics.ts:132-149 | the flag survives exactly when it was set and the top edge is above the line; nothing else changes |
| Deadline.SettleIdempotent | systems/Physics.ts:132-149 | settling twice is settling once |
| Deadline.SettleOnlyClears | systems/Physics.ts:132-149 | the flag is only ever cleared, and an unflagged fruit is untouched |
| Deadline.TriggerExactly | systems/Physics.ts:132-162 | a fruit raises GAME_OVER exactly when it was not spawning, its top is above the line and its speed is below 0.15; a spawning fruit never does |
| Deadline.Settled | systems/Physics.ts:127-149 | the scan settles exactly the fruits held by entities and leaves every other body as it was |
| Deadline.Alarms | systems/Physics.ts:127-162 | the alarming keys are exactly those whose fruit is unflagged, above the line and resting |
| Deadline.SettledAmongStep | systems/Physics.ts:127-149 | visiting one more key settles its fruit in the scan-so-far, and its alarm is the trigger test on it |
| Deadline.AlarmsAmongStep | systems/Physics.ts:151-162 | visiting one more key adds one GAME_OVER exactly when its fruit alarms |
| Deadline.GameOvers | systems/Physics.ts:160 | n dispatches of GAME_OVER |
| Deadline.SettledKeepsSceneOk | systems/Physics.ts:127-149 | the scan keeps the scene invariant |
| Physics.Arena | components/Game.tsx:114-165 | the set-up scene holds the floor and two walls, static, under their names, and satisfies the scene invariant |
| Physics.Engine.constructor | components/Game.tsx:80-170 | a fresh engine holds the set-up scene, with nothing banked, queued or dispatched |
| Physics.Engine.NewFruit | systems/Physics.ts:83-95 | a new dynamic fruit at rest of the given rank, under a fresh identity |
| Physics.Engine.AddToWorld | systems/Physics.ts:96 | the body joins the world |
| Physics.Engine.Retouch | components/Game.tsx:284-286 | one body is replaced by its update, and nothing else changes |
| Physics.Engine.Dispatch | components/Game.tsx:273 | the event is queued for the next tick |
| Physics.Engine.Tick | systems/Physics.ts:5-167 | the tick keeps the engine invariant, takes StepsFor(banked) steps, keeps the residue, and leaves the scene and dispatches of TickOutcome |
| Physics.Engine.Prepare | systems/Physics.ts:9-41 | stages one and two leave the scene and queue of Prepared, n steps counted and the residue banked |
| Physics.Engine.Resolve | systems/Physics.ts:43-164 | stages three and four on a prepared scene keep the invariant and complete the tick |
| Physics.Engine.Finish | systems/Physics.ts:43-164 | draining then scanning leaves the scene and dispatches of Resolved, with the queue emptied |
| Physics.Engine.RegisterEvents | systems/Physics.ts:9-19 | the registration loop computes Register and uses the events up |
| Physics.Engine.Advance | systems/Physics.ts:25-41 | the stepping loop takes exactly StepsFor(charged) steps, ends on the residue below one step, and leaves the scene and queue of Simulate |
| Physics.Engine.StepOnce | systems/Physics.ts:37-41 | one turn of the stepping loop keeps the loop's relation to Simulate |
| Physics.Engine.EngineUpdate | systems/Physics.ts:38 | one engine step moves the bodies as reported and queues the fruit pairs of its collision event |
| Physics.Engine.OnCollisionStart | components/Game.tsx:98-112 | the handler's loop appends exactly FruitPairs of the event to the merge queue |
| Physics.Engine.DrainMergeQueue | systems/Physics.ts:46-124 | the drain loop leaves the scene and dispatches of Drain, and the queue empty |
| Physics.Engine.DrainStep | systems/Physics.ts:50-123 | one turn of the drain loop keeps its relation to DrainPrefix |
| Physics.Engine.ResolvePair | systems/Physics.ts:50-123 | one pair, guard by guard, does what MergePair says |
| Physics.Engine.SpawnMerged | systems/Physics.ts:77-118 | the new fruit is added under its new key, and its score and the pop sound are dispatched |
| Physics.Engine.RetirePair | systems/Physics.ts:66-75 | both bodies are flagged, their entities deleted, and both are taken out of the world |
| Physics.Engine.CheckGameOver | systems/Physics.ts:127-164 | the scan loop, in any key order, leaves Settled and dispatches one GAME_OVER per alarming fruit |
| Physics.Engine.ScanKey | systems/Physics.ts:127-130 | one turn of the scan keeps its relation to SettledAmong and AlarmsAmong |
| Physics.Engine.ScanFruit | systems/Physics.ts:128-162 | one fruit is settled, and GAME_OVER is dispatched exactly when it triggers |
| Physics.Prepared | systems/Physics.ts:9-41 | the first two stages keep the arena invariant |
| Physics.Resolved | systems/Physics.ts:43-164 | the last two stages lose no body identity |
| Physics.TickOutcome | systems/Physics.ts:5-167 | a tick loses no body identity |
| Physics.PreparedKeepsSceneOk | systems/Physics.ts:9-41 | the first two stages keep the scene invariant |
| Physics.ResolvedKeepsSceneOk | systems/Physics.ts:43-164 | the last two stages keep the scene invariant |
| Physics.TickKeepsSceneOk | systems/Physics.ts:5-167 | a whole tick keeps the scene invariant |
| Spawn.ClampSpawnX | components/Game.tsx:193-202 | the x never passes the right wall's inner edge less the radius, passes the left one only when the gap is too narrow, and an x between them is kept |
| Spawn.ClampIdempotent | components/Game.tsx:193-202 | clamping twice is clamping once |
| Spawn.DragSpawnY | components/Game.tsx:204-207 | the drag height is DEADLINE_Y - 30 whatever the radius, so above the line |
| Spawn.DraggedFruitIsSafe | components/Game.tsx:258-267 | a spawning fruit at the drag height keeps its flag through the scan and never raises GAME_OVER |
| Spawn.Recent | components/Game.tsx:234-236 | the window filter keeps exactly the timestamps less than 1000 ms old |
| Spawn.Admit | components/Game.tsx:223-246 | rejected on cooldown exactly when less than 200 ms passed, with nothing changed; a full window keeps only the pruned timestamps; an admission records now, keeping at most 6 timestamps, all in the window |
| Spawn.InitialOk | components/Game.tsx:184-185 | the fresh limiter satisfies the limiter invariant |
| Spawn.RecentKeepsSpaced | components/Game.tsx:234-236 | the window filter keeps the order and spacing of what it keeps |
| Spawn.AdmitKeepsOk | components/Game.tsx:223-246 | every spam check keeps the timestamps ordered, a cooldown apart, and no later than the last spawn |
| Spawn.AtMostFourRecent | components/Game.tsx:224-237 | past the cooldown, at most 4 timestamps remain in the window |
| Spawn.WindowFullUnreachable | components/Game.tsx:224-244 | from a valid limiter the 6-per-window rejection is never reached |
| Spawn.AdmitAllOk | components/Game.tsx:209-246 | after any run of spawn attempts from the fresh limiter, the invariant holds and the window never fills |
| Session.Apply | components/Game.tsx:418-443 | SCORE_UPDATE adds its score and raises the highest rank; GAME_OVER stops the loop and reports the score; "started" marks the engine ready; the other events change nothing |
| Session.ScoreIsSum | components/Game.tsx:419-420 | the score is the starting score plus the sum of the SCORE_UPDATE amounts received |
| Session.MaxOnlyRises | components/Game.tsx:421-423 | the highest rank never falls, is at least every rank received, and is always the start or one of them |
| Session.GameOverStops | components/Game.tsx:424-426 | after any GAME_OVER the loop is stopped for good and a score has been reported |
| Session.ReportsOnlyGrow | components/Game.tsx:424-426 | reported scores are only appended |
| Session.NoGameOverKeepsRunning | components/Game.tsx:418-443 | without a GAME_OVER the running flag and the reports are unchanged |
| Game.HeldFruit | components/Game.tsx:258-267 | the held fruit has the rank, its radius and the given place, and is static, spawning and not merged |
| Game.HeldFruitIsSafe | components/Game.tsx:255-267 | a fruit just placed for dragging, wherever the clamp puts it, keeps its flag through the scan and cannot end the game |
| Game.Game.constructor | components/Game.tsx:38-41 | mounting sets up the world: the engine holds the arena of floor and walls with nothing banked, stepped, queued or dispatched; the first preview is drawn from ranks 0..3; nothing is scored, spawned or dragged |
| Game.Game.BeginDrag | components/Game.tsx:209-274 | no-op before the engine starts or while dragging; otherwise the limiter follows Admit, and an admitted spawn places the previewed fruit, drags it, queues its ADD_BODY and redraws the preview from ranks 0..min(max, 3) |
| Game.Game.SpawnHeld | components/Game.tsx:248-273 | the preview is consumed and redrawn, and the held fruit is placed and handed over |
| Game.Game.PlaceHeld | components/Game.tsx:258-273 | the held fruit gets a fresh identity, joins the world and is queued by ADD_BODY, keeping the engine invariant |
| Game.Game.MoveDragged | components/Game.tsx:276-287 | the dragged fruit moves to the clamped x at the drag height and stops; nothing happens without a drag |
| Game.Game.ReleaseDragged | components/Game.tsx:289-318 | the dragged fruit is made dynamic at the clamped place, stopped and spun; the drag always ends |
| Game.Game.OnEvent | components/Game.tsx:418-443 | the handler's state after one event is Session.Apply of it |
| Game.Game.Frame | components/Game.tsx:411-417 | while running, one tick happens: the scene and dispatches of TickOutcome, StepsFor(banked) steps counted, the residue banked, the events and merge queue emptied, and all its events reach onEvent in order; once stopped, nothing changes |
| Game.Game.Deliver | components/Game.tsx:418-443 | the delivery loop applies the dispatched events to the session in order |

## Left out

- Matter.js itself: collision detection, the solver, gravity, restitution, friction, mass and sleeping. Each fixed step is an outcome passed in as a parameter: the new motion of the bodies it moved and the pairs of its collisionStart event.
- Floating point: all quantities are exact reals. Rounding, NaN, and the `|| 0` and `??` fallbacks that only matter for them are not modelled. Neither is a `pageX` that is undefined on release.
- The clock and the random source are parameters:
  - `Date.now()` and `Math.random()`, including the second `Date.now()` that builds a fruit's key;
  - the random angle of a merged fruit, which is cosmetic;
  - the random push of a released fruit (`applyForce`).
- Physics.Engine.Tick: the accumulator's bound below one step (`Stepper.TickStepBounds`) is stated as a lemma about the residue, not as an extra postcondition of the method.
- Game.Game.ReleaseDragged: `setStatic(false)` is modelled as the flag alone, without Matter's restoring of mass and inertia.
- React scheduling: state updates, effects and stale closures are not modelled.
  - `onEvent` compares `e.index` with the `maxFruitIndex` of the last render. Two SCORE_UPDATEs handled before a re-render (ranks 3, then 2) both pass the test, and the second sets the highest rank to 2. `Session.MaxOnlyRises` holds of the model, which reads the current value, and not of the source in that case.
  - `nextFruitIndexRef` and `maxFruitIndexRef` are read as if synced at once.
  - `onGameOver(score)` receives the current score, not the one captured by the last render.
- The model's game loop delivers a tick's dispatched events to `onEvent` after the tick, in order. Events that the game engine also passes back to the systems are left out. The tick system ignores every event except ADD_BODY, and `onEvent` ignores ADD_BODY.
- The checks that the engine ref and its dispatch function exist, and that the entities hold a world, are folded into the engine-ready flag.
- Entities without a body (`physics`, `deadline`) and the renderers, sizes and colours of the walls are left out. The scan skips those entities in the source too.
- Audio, haptics, rendering, the gesture handlers' coordinate plumbing and the "Next" preview's drawing are left out.
