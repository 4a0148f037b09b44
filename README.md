# Pool table engine, modelled in Dafny

The repository is a small browser game: circular balls on a rectangular
table. Balls bounce off the walls, losing speed by an attenuation ratio.
They collide with each other elastically, with r³ as the mass. The cursor
can grip a ball, drag it and throw it. This project models the engine
behind that:

- `utils.dfy`, module `Utils` (src/functions/utils.ts):
  - the signed gap between two circles;
  - the collision velocity algebra `getSpeeds` in a frame rotated to the
    collision normal;
  - the rounded random generators and the colour generator.
- `mouse.dfy`, module `Cursor` (src/objects/mouse.ts): the cursor state,
  its event handlers and its 200 ms velocity decay timers.
- `ball_rules.dfy`, module `BallRules` (src/objects/ball.ts, on values): what
  each Ball method does to one ball, or to two for a collision. This covers:
  - the contact hysteresis of `handleCollapse`;
  - the debounced wall bounce;
  - the clamp-then-reflect positioning of `setX`/`setY`;
  - the grip rule of `handleStroke`;
  - the invariant that contact sets stay symmetric.
- `ball.dfy`, module `Balls` (src/objects/ball.ts, on the heap): the `Ball`
  class and a `Registry` class. The registry holds the statics `Ball.balls`,
  `Ball.W`, `Ball.H` and `Ball.attenuationRatio`, and `Ball.set`.
  - Every instance method states its whole new heap. Where a `BallRules`
    function exists for the handler, the method is proved to follow it.
  - HandleCollapse, SetX, SetY, Store, HandleStroke, Grab and Move also
    require and keep the registry invariant (`Registry.Valid`). Set
    establishes it.
  - HandleBorderTouch, SetBorder and ExpireBorder write only velocities and
    the border, which the invariant does not mention. They neither require
    nor promise it; in a tick, `Table.TickBorderTouch` shows it still holds.
  - PickPlace, AddBall and AddBalls run inside Set. They work on the
    set-up predicate `Placed` instead and are proved equal to the reference
    functions `BallRules.FirstClear`, `Balls.NextBall` and `Balls.Fill`.
- `table.dfy`, module `Table` (the `update` callback of
  src/components/Table/Table.tsx). One tick is written as a *plan*: the
  list of calls it makes, run by an interpreter over the value state.
  - The heap method `Update` is proved to leave exactly the state that the
    plan leaves.
  - Lemmas about the plan show that each ball gets one border touch, one
    stroke and one move per tick, that each unordered pair is resolved
    exactly once, and that the invariant and a valid grip are preserved.
- `functions.dfy`, module `EarlyEngine` (src/functions/functions.ts): the
  earlier self-contained engine. It has:
  - its own `Mouse`, with no decay;
  - its own `Ball`, with a per-ball ratio, no clamping and no contact test
    on grip;
  - `setBalls`;
  - its two velocity kernels.
  It reuses the contact rule and the wall rule of the live engine. Lemmas
  show where the two engines agree and where they differ.

Numbers are Dafny reals. Some things the source computes come from outside
the model:

- A square root is only ever compared with a sum of radii. It is modelled by
  comparing squares (`Gap`), and a lemma ties that comparison to any
  non-negative root.
- cos and sin of the collision angle come from a parameter
  `trig: Angle -> Rot`. The angle itself is modelled exactly: `atan2` of the
  centre offsets, or the fallback constants ±1.
- Each `Math.random()` call takes the next element of a finite sequence of
  draws in [0, 1). An operation that runs out of draws reports failure.
- Each `setTimeout` reset becomes an explicit expiry method. A ghost
  counter records how many timers are pending.

Four behaviours of the code that one might expect to be otherwise:

- **A ball is not always kept inside [r, W − r] × [r, H − r].** The code
  clamps and then reflects the step against contact peers, and the
  reflection can take the ball out again (`BallRules.ReflectionCanLeaveTable`
  gives an instance). Containment holds only for balls with no contacts:
  `BallRules.SetXContained` and `BallRules.MoveFree`.
- **A new cursor sample does not replace the pending velocity reset.** Each
  sample schedules a reset that is never cancelled, so an older timer zeroes
  a newer sample (`Cursor.StaleTimerZeroesNewSample`).
- **The collision fallback is not limited to coincident centres.** It fires
  whenever the two centres have the same y, and the angle is then 1 or −1
  radian (`Utils.CollisionAngle`).
- **The grip test is not "the cursor lies on the ball".** The code tests
  whether a circle of radius 1 around the cursor overlaps the ball
  (`BallRules.GripsInSquares`).

## Model

| member | source | states |
|---|---|---|
| Utils.GetDistance | src/functions/utils.ts:57-68 | the gap is non-positive iff the squared centre distance is at most (r1 + r2)² with r1 + r2 ≥ 0, and negative (isOverlapping) iff it is strictly below with r1 + r2 > 0 |
| Utils.GetDistanceMatchesSqrt | src/functions/utils.ts:57-68 | for the non-negative root of the squared distance, the squared comparisons give exactly the sign of `sqrt(d²) − r1 − r2` |
| Utils.GetDistanceSymmetric | src/functions/utils.ts:57-68 | the gap does not depend on the order of the two circles |
| Utils.CollisionAngle | src/functions/utils.ts:94 | alpha is atan2(x2 − x1, y2 − y1) exactly when y2 ≠ y1; otherwise 1 if x2 > x1, else −1 |
| Utils.CollisionAngleFallbackFlips | src/functions/utils.ts:94 | on one horizontal line the fallback angle changes sign when the balls are swapped |
| Utils.NormalSpeeds | src/functions/utils.ts:100-104 | uy2alpha − uy1alpha == vy1alpha − vy2alpha |
| Utils.DenominatorPositive | src/functions/utils.ts:100-102 | positive radii make r1³ + r2³ positive |
| Utils.NormalMomentum | src/functions/utils.ts:100-104 | the normal step conserves the r³-weighted momentum |
| Utils.NormalEnergy | src/functions/utils.ts:100-104 | the normal step conserves the r³-weighted kinetic energy |
| Utils.NormalEqualRadii | src/functions/utils.ts:100-104 | with equal radii the normal components are exchanged (uy1alpha == vy2alpha) |
| Utils.GetSpeedsNormalFrame | src/functions/utils.ts:100-104 | the difference law in the rotated frame, and uy1alpha == vy2alpha for equal radii |
| Utils.GetSpeeds | src/functions/utils.ts:86-120 | all four outputs are 0 when attenuationRatio is 0 |
| Utils.GetSpeedsScales | src/functions/utils.ts:106-117 | the result for ratio k is the result for ratio 1 scaled by k |
| Utils.RawSpeeds | src/functions/utils.ts:95-117 | the unscaled getSpeeds outputs: into the contact frame, the r³-weighted normal exchange, and back; its laws are GetSpeedsScales, NormalMomentum and NormalEnergy |
| Utils.Round | src/functions/utils.ts:39 | Math.round lands within half a unit: x − 0.5 < n ≤ x + 0.5 |
| Utils.RoundedDraw | src/functions/utils.ts:50 | a rounded draw between two integer bounds lies between them, in either order |
| Utils.GenerateRadius | src/functions/utils.ts:38-40 | the radius lies in [min(minR, maxR), max(minR, maxR)] |
| Utils.GenerateCoordinates | src/functions/utils.ts:44-53 | each coordinate lies within its interval |
| Utils.HexDigit | src/functions/utils.ts:23 | each drawn character is one of 0-9a-f |
| Utils.HexString | src/functions/utils.ts:22-24 | one hex character per draw |
| Utils.PickColor | src/functions/utils.ts:1-34 | the colour is '#' plus 6 hex characters, never "#000000" or "#ffffff", using whole groups of six draws |
| Utils.ColorAt | src/functions/utils.ts:20-24 | six draws give "#" followed by six hex characters |
| Utils.PickColorNone | src/functions/utils.ts:1-34 | no colour is found iff every group of six draws from the start gives "#000000" or "#ffffff", the case where generateColor retries forever |
| Utils.PickColorFirst | src/functions/utils.ts:25-28 | a found colour is the first group of six that is not reserved: every earlier group is reserved |
| Utils.GenerateColor | src/functions/utils.ts:1-34 | the loop-and-retry method returns the PickColor result, hence a valid colour |
| Cursor.Mouse.constructor | src/objects/mouse.ts:9-16 | all fields zero, no button, grip −1 |
| Cursor.Mouse.SetVx | src/objects/mouse.ts:18-24 | vx takes the sample and one more reset is pending; nothing else changes |
| Cursor.Mouse.SetVy | src/objects/mouse.ts:26-32 | vy takes the sample and one more reset is pending |
| Cursor.Mouse.ExpireVx | src/objects/mouse.ts:20-23 | a pending reset zeroes vx and is consumed |
| Cursor.Mouse.ExpireVy | src/objects/mouse.ts:28-31 | a pending reset zeroes vy and is consumed |
| Cursor.Mouse.OnMove | src/objects/mouse.ts:37-42 | position relative to the canvas, the deltas as velocity, one reset scheduled per component |
| Cursor.Mouse.OnLeave | src/objects/mouse.ts:44-47 | button and grip released; nothing else changes |
| Cursor.Mouse.OnDown | src/objects/mouse.ts:49-53 | only button 0 presses; the grip is kept |
| Cursor.Mouse.OnUp | src/objects/mouse.ts:55-60 | button 0 releases button and grip; other buttons change nothing |
| Cursor.MoveThenDecay | src/objects/mouse.ts:18-42 | after a sample and both of its resets the velocity is zero and the position is the sample's |
| Cursor.StaleTimerZeroesNewSample | src/objects/mouse.ts:18-24 | a reset scheduled by an earlier sample zeroes a later one |
| BallRules.Added | src/objects/ball.ts:65-66 | Set.add: the members are the old ones plus v, duplicates are not created, and insertion order is kept |
| BallRules.Removed | src/objects/ball.ts:87-88 | Set.delete: the members are the old ones minus v, duplicates are not created, and an absent v changes nothing |
| BallRules.ContactStep | src/objects/ball.ts:53-90 | the contact-set update of one handleCollapse call; its cases are ContactStepCases and ContactStepAgrees |
| BallRules.ContactStepCases | src/objects/ball.ts:53-90 | an impulse exactly on a new contact; no change while in contact; both entries removed on separation; no other id touched |
| BallRules.ContactStepAgrees | src/objects/ball.ts:53-90 | if the two sets agreed before, afterwards each holds the other's id exactly when the gap is non-positive |
| BallRules.Collide | src/objects/ball.ts:53-90 | handleCollapse on two ball values; stated by CollideOnContact, CollideHolds, CollideSeparates and CollideKeepsPlace |
| BallRules.CollideOnContact | src/objects/ball.ts:64-84 | on a new contact both sets gain the other's id and the velocities are getSpeeds' outputs with Ball.attenuationRatio |
| BallRules.CollideHolds | src/objects/ball.ts:53-90 | touching and already in contact: both balls unchanged |
| BallRules.CollideSeparates | src/objects/ball.ts:86-89 | a positive gap removes both entries and keeps the velocities |
| BallRules.CollideKeepsPlace | src/objects/ball.ts:53-90 | a collision changes only velocities and contact sets |
| BallRules.CollidePreservesWellFormed | src/objects/ball.ts:53-90 | on two distinct balls of a well-formed registry the result is well formed: ids are indices, radii positive, sets duplicate-free and symmetric |
| BallRules.Bounce | src/objects/ball.ts:177-199 | one wall branch of handleBorderTouch; stated by BounceRule |
| BallRules.BorderTouch | src/objects/ball.ts:176-200 | the four wall branches in the order of the code; stated by the BorderTouch lemmas below |
| BallRules.BounceRule | src/objects/ball.ts:176-200 | a branch fires iff its wall is crossed and is not the debounced one; it then negates the normal component, scales both by the ratio and records the wall |
| BallRules.BorderTouchQuiet | src/objects/ball.ts:176-200 | away from all walls nothing changes |
| BallRules.BorderTouchDebounced | src/objects/ball.ts:176-200 | touching only the debounced wall changes nothing |
| BallRules.BorderTouchCorner | src/objects/ball.ts:177-193 | a corner bounces off both walls in one call, and the later branch's wall is recorded |
| BallRules.BorderTouchBorder | src/objects/ball.ts:176-200 | the recorded border is the old one or a crossed wall |
| BallRules.BorderTouchEnergy | src/objects/ball.ts:176-200 | with a ratio in [0, 1] the speed never grows |
| BallRules.BorderTouchBall | src/objects/ball.ts:176-200 | only vx, vy and border change |
| BallRules.Clamp | src/objects/ball.ts:135 | the value stays in [lo, hi], equals c when c is inside, and is one of c, lo, hi |
| BallRules.Mirror | src/objects/ball.ts:139-145 | the candidate mirrored against one touching peer; stated by MirrorNotCloser |
| BallRules.Reflect | src/objects/ball.ts:136-147 | the forEach over the contact peers; stated by ReflectKeepsStep |
| BallRules.Peers | src/objects/ball.ts:136-138 | at most one peer per contact id, and none without contacts |
| BallRules.ReflectKeepsStep | src/objects/ball.ts:136-147 | the reflections keep the length of the step and may only flip its direction |
| BallRules.MirrorNotCloser | src/objects/ball.ts:143-145 | against a touching peer the result is never closer to it along the axis than the current position |
| BallRules.SetXState | src/objects/ball.ts:134-149 | setX changes only x |
| BallRules.SetYState | src/objects/ball.ts:151-166 | setY changes only y |
| BallRules.SetXContained | src/objects/ball.ts:134-149 | with no contacts, x ends in [r, W − r] and equals an in-range candidate |
| BallRules.SetYContained | src/objects/ball.ts:151-166 | with no contacts, y ends in [r, H − r] and equals an in-range candidate |
| BallRules.ReflectionCanLeaveTable | src/objects/ball.ts:134-149 | a concrete pair of touching balls for which setX places the ball beyond W − r |
| BallRules.Move | src/objects/ball.ts:242-245 | move changes only the position |
| BallRules.MoveFree | src/objects/ball.ts:242-245 | a ball with no contacts moves by its velocity, clamped, and stays on the table |
| BallRules.Stroke | src/objects/ball.ts:202-224 | id, radius and contacts are never changed |
| BallRules.StrokeRule | src/objects/ball.ts:202-224 | nothing changes unless the grip condition holds; then the cursor grips this ball, and the ball sits at the clamped cursor position with the cursor's velocity |
| BallRules.Grips | src/objects/ball.ts:212-217 | the grip condition; stated by GripsInSquares |
| BallRules.GripsInSquares | src/objects/ball.ts:203-217 | grip iff centre distance² < (r + 1)², the button is down, the grip is −1 or this id, and there are no contacts |
| BallRules.Discs | src/objects/ball.ts:99-103 | one disc per placed ball, in order, with its centre and radius |
| BallRules.Attempt | src/objects/ball.ts:105-106 | one gC call: both coordinates lie in the band [r + 5, W − r − 5] × [r + 5, H − r − 5], whichever way round its bounds are |
| BallRules.FirstClear | src/objects/ball.ts:121-127 | the do-while: the first attempt that no placed ball overlaps, with the draws it used, never past the end of the draws |
| BallRules.FirstClearNone | src/objects/ball.ts:123-127 | no place is found iff every attempt from the start overlaps a ball, the case where the do-while never ends |
| BallRules.FirstClearFirst | src/objects/ball.ts:123-127 | a found place is the first clear attempt: every earlier attempt overlaps a ball, and the place is that attempt's point |
| BallRules.ClearOfAll | src/objects/ball.ts:99-103 | a clear attempt overlaps none of the placed balls |
| Balls.Ball.constructor | src/objects/ball.ts:40-51 | the ball starts at rest with no contacts and no border |
| Balls.Ball.HandleCollapse | src/objects/ball.ts:53-90 | the two balls become the Collide result; only their registry entries change, and the registry stays valid |
| Balls.Ball.ReflectAlong | src/objects/ball.ts:136-147 | the forEach yields Reflect over the contact peers in insertion order |
| Balls.Ball.MirrorPeer | src/objects/ball.ts:139-145 | one forEach step yields Mirror against that peer |
| Balls.Ball.Store | src/objects/ball.ts:148 | writing position and velocity changes only those four fields and this ball's registry entry, and keeps the registry invariant |
| Balls.Ball.SetX | src/objects/ball.ts:134-149 | the ball becomes SetXState of its old state and the old snapshot; the registry stays valid |
| Balls.Ball.SetY | src/objects/ball.ts:151-166 | the ball becomes SetYState of its old state and the old snapshot |
| Balls.Ball.SetBorder | src/objects/ball.ts:168-174 | border recorded, one reset pending |
| Balls.Ball.ExpireBorder | src/objects/ball.ts:170-173 | a pending reset clears the border |
| Balls.Ball.HandleBorderTouch | src/objects/ball.ts:176-200 | the ball becomes BorderTouchBall of its old state; a new border always comes with a scheduled reset |
| Balls.Ball.HandleStroke | src/objects/ball.ts:202-224 | ball and cursor become the Stroke result; only this ball's entry changes, and the registry stays valid |
| Balls.Ball.Grab | src/objects/ball.ts:218-222 | under the grip condition, the grip branch gives the Stroke result |
| Balls.Ball.Move | src/objects/ball.ts:242-245 | the ball becomes BallRules.Move of its old state and the old snapshot |
| Balls.PlacedWellFormed | src/objects/ball.ts:92-132 | a placed registry with positive radii satisfies the invariant |
| Balls.NextBall | src/objects/ball.ts:120-128 | one pass of the for loop: a radius, the first clear place, the first non-reserved colour; the ball has id i and at least one draw is used |
| Balls.NextBallNone | src/objects/ball.ts:120-128 | a pass fails iff the draws are used up, every placement attempt overlaps, or every colour after the place is reserved: the cases where the source loops forever |
| Balls.NextBallFits | src/objects/ball.ts:120-128 | the new ball has id i, a radius in range, a centre in the band, a random colour, and is at rest with no contacts |
| Balls.NextBallParts | src/objects/ball.ts:123-128 | the new ball's centre is a clear attempt drawn with its own radius |
| Balls.NextBallClear | src/objects/ball.ts:123-128 | the new ball overlaps none of the earlier balls |
| Balls.Fill | src/objects/ball.ts:119-129 | the rest of the for loop: never fewer balls than before nor more than qty, and success iff qty balls are reached |
| Balls.FillExtends | src/objects/ball.ts:119-129 | the loop only appends: the earlier balls stay a prefix |
| Balls.FillPlaced | src/objects/ball.ts:119-129 | the loop keeps every ball placed and pairwise clear |
| Balls.FillFails | src/objects/ball.ts:119-129 | stopping short of qty means the next pass is one that never finishes |
| Balls.CueBall | src/objects/ball.ts:109-112 | ball 0 is white, at rest, with a radius in range and a centre in the band |
| Balls.SetResult | src/objects/ball.ts:92-132 | Ball.set as a function of the draws: success iff max(qty, 1) balls |
| Balls.SetResultPlaced | src/objects/ball.ts:92-132 | the balls of Ball.set are placed and pairwise clear |
| Balls.SetResultFails | src/objects/ball.ts:92-132 | Ball.set fails only when the draws cannot place ball 0 or a pass never finishes |
| Balls.Registry.constructor | src/objects/ball.ts:25-28 | no balls, W = H = 0, attenuationRatio 0.8 |
| Balls.Registry.Push | src/objects/ball.ts:128 | one fresh ball at rest is appended; the constants are kept |
| Balls.Registry.Overlaps | src/objects/ball.ts:99-103 | isOverlapping is the overlap test against the discs of the stored balls |
| Balls.Registry.PickPlace | src/objects/ball.ts:121-127 | the do-while returns FirstClear on the stored balls: nothing iff every attempt overlaps (FirstClearNone), otherwise the first clear attempt, in the band and overlapping no stored ball |
| Balls.Registry.AddBall | src/objects/ball.ts:120-128 | one loop pass appends exactly NextBall's ball as a fresh object and returns its draw position; it changes nothing exactly when NextBall fails; Placed is kept |
| Balls.Registry.AddBalls | src/objects/ball.ts:119-129 | the for loop leaves Fill's balls and result, keeps the earlier objects and adds only fresh ones |
| Balls.Registry.Set | src/objects/ball.ts:92-132 | Ball.set stores the constants, leaves exactly SetResult's balls and result (so its failures are those of SetResultFails), placed, pairwise clear and valid, and succeeds iff there are max(qty, 1) balls |
| Table.Collisions | src/components/Table/Table.tsx:46-48 | the filtered forEach for one ball; stated by CollisionsShape and CollisionsCount |
| Table.Block | src/components/Table/Table.tsx:44-49 | the calls of one forEach pass; stated by BlockVisits |
| Table.Plan | src/components/Table/Table.tsx:43-50 | the calls of one update(); stated by PlanVisitsEachBallOnce and PlanPairOnce |
| Table.Run | src/components/Table/Table.tsx:43-50 | running a list of calls in order; stated by RunAppend and RunKeepsWellFormed |
| Table.CollisionsShape | src/components/Table/Table.tsx:46-48 | every collision for ball i pairs an earlier-scanned entry with a larger id, as first argument, with i |
| Table.CollisionsCount | src/components/Table/Table.tsx:46-48 | each qualifying pair appears exactly once, and no other pair appears |
| Table.BlockVisits | src/components/Table/Table.tsx:43-50 | a ball's block has one border touch, one stroke and one move, all its own |
| Table.PlanUpToVisit | src/components/Table/Table.tsx:43-50 | after n balls each of the first n has had each kind of call exactly once |
| Table.PlanUpToCollapses | src/components/Table/Table.tsx:43-50 | after n balls, handleCollapse(p, q) has happened once iff q < n and id p > id q |
| Table.PlanVisitsEachBallOnce | src/components/Table/Table.tsx:43-50 | one tick calls handleBorderTouch, handleStroke and move once per ball |
| Table.PlanPairOnce | src/components/Table/Table.tsx:46-48 | each unordered pair is resolved exactly once per tick, with the larger id first |
| Table.NoLargerIdNoCollisions | src/components/Table/Table.tsx:46-48 | with no larger id among the scanned entries, there are no collisions |
| Table.LargestIdCollidesNothing | src/components/Table/Table.tsx:43-50 | the ball with the largest id only touches borders, strokes and moves |
| Table.PlanUpToInRange | src/components/Table/Table.tsx:43-50 | every planned call names array indices |
| Table.Step | src/components/Table/Table.tsx:44-49 | a call never changes the number of balls |
| Table.StepKeepsWellFormed | src/components/Table/Table.tsx:44-49 | every call keeps the registry invariant |
| Table.RunAppend | src/components/Table/Table.tsx:43-50 | running p then q is running p + q |
| Table.RunKeepsWellFormed | src/components/Table/Table.tsx:42-51 | any plan keeps the invariant and the number of balls |
| Table.StepKeepsGrip | src/components/Table/Table.tsx:45 | a call never makes the cursor grip a non-ball |
| Table.RunKeepsGrip | src/components/Table/Table.tsx:42-51 | any plan keeps the grip −1 or a ball index |
| Table.Update | src/components/Table/Table.tsx:42-51 | the heap after update() is the plan of the old ids run on the old state; the registry stays valid |
| Table.TickAll | src/components/Table/Table.tsx:43-50 | the forEach over balls runs the whole plan |
| Table.TickBall | src/components/Table/Table.tsx:44-49 | one forEach pass runs that ball's block |
| Table.TickCollisions | src/components/Table/Table.tsx:46-48 | the filtered forEach runs the ball's collisions in array order |
| Table.TickCandidate | src/components/Table/Table.tsx:47-48 | one candidate: collide iff its id is larger |
| Table.TickBorderTouch | src/components/Table/Table.tsx:44 | the heap step equals Step on a border-touch call |
| Table.TickStroke | src/components/Table/Table.tsx:45 | the heap step equals Step on a stroke call |
| Table.TickCollapse | src/components/Table/Table.tsx:48 | the heap step equals Step on handleCollapse(item, ball) |
| Table.TickMove | src/components/Table/Table.tsx:49 | the heap step equals Step on a move call |
| EarlyEngine.Mouse.constructor | src/functions/functions.ts:80-90 | all numbers zero, no button, grip −1 |
| EarlyEngine.Mouse.OnMove | src/functions/functions.ts:114-122 | position relative to the canvas, raw deltas, timestamp; the deltas stay until the next sample |
| EarlyEngine.Mouse.OnLeave | src/functions/functions.ts:128-131 | button and grip released |
| EarlyEngine.Mouse.OnDown | src/functions/functions.ts:133-139 | only button 0 arms the grip |
| EarlyEngine.Mouse.OnUp | src/functions/functions.ts:141-146 | button 0 releases button and grip; others change nothing |
| EarlyEngine.CollapseFrame | src/functions/functions.ts:183-192 | the rotated-frame exchange of handleCollapse; stated by CollapseFrameNormal |
| EarlyEngine.CollapseFrameNormal | src/functions/functions.ts:183-192 | uy2alpha − uy1alpha == vy1alpha − vy2alpha, and equal radii give uy1alpha == vy2alpha and uy2alpha == vy1alpha |
| EarlyEngine.CollapseKernel | src/functions/functions.ts:173-208 | all outputs are 0 when attenuationRatio is 0 |
| EarlyEngine.CollapseKernelEqualRadii | src/functions/functions.ts:188-205 | with equal radii the kernel exchanges the normal components and keeps the tangential ones |
| EarlyEngine.CollapseKernelAgainstGetSpeeds | src/functions/functions.ts:194-205 | against utils' getSpeeds, three outputs agree and vx2New has the opposite sign |
| EarlyEngine.StrokeKernel | src/functions/functions.ts:211-233 | both outputs are 0 when attenuationRatio is 0 |
| EarlyEngine.StrokeKernelAtRest | src/functions/functions.ts:221-230 | a body at rest reverses ball 1's normal component (uy1alpha = −vy1alpha) |
| EarlyEngine.StrokeKernelScales | src/functions/functions.ts:225-230 | the outputs are linear in attenuationRatio |
| EarlyEngine.BorderTouchBall | src/functions/functions.ts:298-322 | only vx, vy and border change |
| EarlyEngine.BorderTouchAgrees | src/functions/functions.ts:298-322 | the wall rule is the live one with the ball's own ratio |
| EarlyEngine.BorderTouchBallEnergy | src/functions/functions.ts:298-322 | with the ball's ratio in [0, 1] a wall bounce never adds speed |
| EarlyEngine.Grips | src/functions/functions.ts:354-358 | the early grip condition; stated by GripsInSquares |
| EarlyEngine.GripsInSquares | src/functions/functions.ts:354-358 | grip iff r ≥ 0 and centre distance² ≤ r², the button is armed, and the grip is −1 or this id; contacts are not consulted |
| EarlyEngine.Stroke | src/functions/functions.ts:353-365 | the early handleStroke on values; stated by StrokeFrame, StrokeIdempotent and StrokeExclusive |
| EarlyEngine.StrokeFrame | src/functions/functions.ts:353-365 | no change without the grip condition; otherwise only position, velocity and the cursor's grip change |
| EarlyEngine.StrokeIdempotent | src/functions/functions.ts:353-365 | repeating the stroke with the resulting cursor changes nothing more |
| EarlyEngine.StrokeExclusive | src/functions/functions.ts:358-359 | once one ball is gripped no other ball can be gripped |
| EarlyEngine.Moved | src/functions/functions.ts:408-411 | one move step; stated by DriftIsLinear |
| EarlyEngine.DriftIsLinear | src/functions/functions.ts:408-411 | n moves go n velocity steps in a straight line, unclamped |
| EarlyEngine.Collide | src/functions/functions.ts:367-406 | the early handleCollapse on values; stated by CollideRules and CollidePreservesConsistent |
| EarlyEngine.CollideRules | src/functions/functions.ts:367-406 | entry (both ids added, kernel outputs applied), hold (no change), separation (both ids removed, velocities kept) |
| EarlyEngine.CollidePreservesConsistent | src/functions/functions.ts:367-406 | on two distinct balls of a consistent array, contact sets stay symmetric and duplicate-free, and the pair is in contact iff the gap is non-positive |
| EarlyEngine.Ball.constructor | src/functions/functions.ts:259-277 | the ball starts at rest with its own ratio, no contacts and no border |
| EarlyEngine.Ball.SetBorder | src/functions/functions.ts:290-296 | border recorded, one reset pending |
| EarlyEngine.Ball.ExpireBorder | src/functions/functions.ts:292-295 | a pending reset clears the border |
| EarlyEngine.Ball.HandleBorderTouch | src/functions/functions.ts:298-322 | the ball becomes BorderTouchBall of its old state; a new border comes with a reset |
| EarlyEngine.Ball.HandleStroke | src/functions/functions.ts:353-365 | ball and cursor become the Stroke result |
| EarlyEngine.Ball.HandleCollapse | src/functions/functions.ts:367-406 | the two balls become the Collide result |
| EarlyEngine.Ball.Move | src/functions/functions.ts:408-411 | the position advances by the velocity |
| EarlyEngine.PlacedConsistent | src/functions/functions.ts:464-502 | an array made by setBalls is consistent |
| EarlyEngine.Discs | src/functions/functions.ts:468-474 | one disc per ball, in order, with its centre and radius |
| EarlyEngine.ClearOfAll | src/functions/functions.ts:468-474 | a clear attempt overlaps none of the balls |
| EarlyEngine.Overlaps | src/functions/functions.ts:468-474 | isOverlapping is the overlap test against the discs of the balls so far |
| EarlyEngine.PickPlace | src/functions/functions.ts:492-497 | the do-while returns BallRules.FirstClear on the balls so far: nothing iff every attempt overlaps, otherwise the first clear attempt, in the band and overlapping no earlier ball |
| EarlyEngine.NextBall | src/functions/functions.ts:491-498 | one pass of the for loop: a radius, the first clear place, the first non-reserved colour and the configured ratio; the ball has id i and at least one draw is used |
| EarlyEngine.NextBallNone | src/functions/functions.ts:491-498 | a pass fails iff the draws are used up, every placement attempt overlaps, or every colour after the place is reserved: the cases where the source loops forever |
| EarlyEngine.NextBallFits | src/functions/functions.ts:491-498 | the new ball has id i, a radius in range, a centre in the band, a random colour, the ratio, and is at rest with no contacts |
| EarlyEngine.NextBallParts | src/functions/functions.ts:494-498 | the new ball's centre is a clear attempt drawn with its own radius |
| EarlyEngine.NextBallClear | src/functions/functions.ts:494-498 | the new ball overlaps none of the earlier balls |
| EarlyEngine.Fill | src/functions/functions.ts:490-499 | the rest of the for loop: never fewer balls than before nor more than qty, and success iff qty balls are reached |
| EarlyEngine.FillExtends | src/functions/functions.ts:490-499 | the loop only appends: the earlier balls stay a prefix |
| EarlyEngine.FillPlaced | src/functions/functions.ts:490-499 | the loop keeps every ball placed and pairwise clear |
| EarlyEngine.FillFails | src/functions/functions.ts:490-499 | stopping short of qty means the next pass is one that never finishes |
| EarlyEngine.FirstBall | src/functions/functions.ts:480-483 | ball 0 takes a generateColor colour; when found it uses the draws after the first three |
| EarlyEngine.FirstBallNone | src/functions/functions.ts:480-483 | ball 0 is not made iff every colour drawn for it is reserved |
| EarlyEngine.FirstBallPlaced | src/functions/functions.ts:480-483 | ball 0 alone is placed: id 0, radius and centre in range, a random colour, the ratio |
| EarlyEngine.SetBallsResult | src/functions/functions.ts:464-502 | setBalls as a function of the draws: success iff max(qty, 1) balls |
| EarlyEngine.SetBallsPlaced | src/functions/functions.ts:464-502 | the balls of setBalls are placed and pairwise clear |
| EarlyEngine.SetBallsFails | src/functions/functions.ts:464-502 | setBalls fails only when the draws cannot start ball 0, every colour for ball 0 is reserved, or a pass never finishes |
| EarlyEngine.AddBall | src/functions/functions.ts:491-498 | one loop pass returns a fresh ball whose state is exactly NextBall's, with its draw position, and nothing exactly when NextBall fails; the array with it stays placed |
| EarlyEngine.AddBalls | src/functions/functions.ts:490-499 | the for loop leaves Fill's balls and result, keeps the earlier objects and adds only fresh ones |
| EarlyEngine.SetBalls | src/functions/functions.ts:464-502 | the fresh array and ok are exactly SetBallsResult's (so its failures are those of SetBallsFails); the balls are placed, pairwise clear and consistent, and ok iff there are max(qty, 1) of them |

## Left out

- Drawing: `Ball.draw` (src/objects/ball.ts:226-240), `drawBall` and the early
  `Ball.draw` (src/functions/functions.ts:1-21, 279-288), and `render`. They
  draw on a canvas and change no state.
- Frame scheduling: `animate` (src/functions/animate.ts, and
  src/functions/functions.ts:39-65) wraps `requestAnimationFrame`. Only the
  `update` body is modelled.
- DOM wiring: `addEventListener` and `getBoundingClientRect` in `track` and
  `trackMouse`. The handlers are methods that take the event's numbers; the
  canvas offset is a parameter.
- `console.log` calls: they have no effect on state.
- src/components/Table/Tmp.tsx is not part of this model. Its imports do not
  resolve, and its logic repeats functions.ts.
- Floating point: reals replace IEEE doubles. No claim is made about
  rounding error, NaN or infinities. An r1³ + r2³ of 0 divides by zero in the
  source, giving NaN; the model excludes that case instead.
- Trigonometry: cos/sin/atan2 are an abstract parameter. No relation such as
  cos² + sin² = 1 is assumed, and no claim is made that the kernels are
  physically exact.
- Timers: each `setTimeout` is an expiry method that may be called at any
  time after it was scheduled. The 200 ms and 300 ms delays themselves are
  not modelled.
- Randomness: `Math.random` is a finite draw sequence. Where the source
  would retry forever (every placement overlaps, or every colour is
  "#000000" or "#ffffff"), the model runs out of draws and reports failure.
  Those cases are named exactly by FirstClearNone, PickColorNone,
  NextBallNone, FillFails, SetResultFails and SetBallsFails.
- Balls.Registry.Set: requires positive minR and maxR, so that the resulting
  registry satisfies the invariant (positive radii). The source accepts any
  config.
- Balls.Ball.HandleCollapse: requires two distinct registered balls. The
  tick only calls it that way; calling it on one ball is not modelled.
- EarlyEngine.Ball.HandleCollapse: requires two distinct balls and
  r1³ + r2³ ≠ 0, matching the NaN case above.
- Table.Step: out-of-range calls and the zero-radius division case are
  no-ops. Neither occurs in a tick on a valid registry.
- generateColor, generateR and generateCoordinates of
  src/functions/functions.ts (414-462) are the same code as in
  src/functions/utils.ts. They are modelled once, by Utils.GenerateColor,
  Utils.GenerateRadius and Utils.GenerateCoordinates.
- EarlyEngine.StrokeKernel is the handleStroke kernel of functions.ts. In the
  source it is called only from a commented-out method, so the early
  `Ball.handleStroke` does not use it, and neither does the model.
- Ball.color is modelled as a field, but nothing in the core changes it;
  the colour menu is outside the model.
