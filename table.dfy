/** One animation tick of src/components/Table/Table.tsx (the update
    callback): for each ball in array order, handleBorderTouch, then
    handleStroke with the shared cursor, then handleCollapse(item, ball)
    for every item with a larger id, in array order, then move.

    The tick is specified as a plan — the list of calls it makes — run on
    the value-level state; the heap method Update is proved to leave
    exactly the state that running the plan gives, and the lemmas about the
    plan say which calls a tick makes and in which order. */
module Table {
  import opened Utils
  import opened Cursor
  import opened BallRules
  import opened Balls

  /** One call of the tick, by array index. */
  datatype Call =
    | BorderTouchCall(i: int)
    | StrokeCall(i: int)
    | CollapseCall(first: int, second: int)
    | MoveCall(i: int)

  /** The collisions the ball at index i resolves, looking at the first j
      array entries: each entry with a larger id, in array order, as the
      first ball of the pair. */
  function Collisions(ids: seq<int>, i: int, j: int): seq<Call>
    requires 0 <= i < |ids| && 0 <= j <= |ids|
  {
    if j == 0 then []
    else Collisions(ids, i, j - 1) + (if ids[j - 1] > ids[i] then [CollapseCall(j - 1, i)] else [])
  }

  /** The calls made for the ball at index i. */
  function Block(ids: seq<int>, i: int): seq<Call>
    requires 0 <= i < |ids|
  {
    [BorderTouchCall(i), StrokeCall(i)] + Collisions(ids, i, |ids|) + [MoveCall(i)]
  }

  /** The calls made for the first n balls. */
  function PlanUpTo(ids: seq<int>, n: int): seq<Call>
    requires 0 <= n <= |ids|
  {
    if n == 0 then [] else PlanUpTo(ids, n - 1) + Block(ids, n - 1)
  }

  /** The calls of one tick over balls with these ids, in array order. */
  function Plan(ids: seq<int>): seq<Call>
  {
    PlanUpTo(ids, |ids|)
  }

  // ---------------------------------------------------------------------
  // What a tick calls

  /** How often call c occurs in p. */
  function Count(p: seq<Call>, c: Call): int
    decreases |p|
  {
    if |p| == 0 then 0 else (if p[0] == c then 1 else 0) + Count(p[1..], c)
  }

  /** Counting distributes over concatenation. */
  lemma {:induction false} CountAppend(p: seq<Call>, q: seq<Call>, c: Call)
    ensures Count(p + q, c) == Count(p, c) + Count(q, c)
    decreases |p|
  {
    if p == [] {
      assert p + q == q;
    } else {
      assert (p + q)[1..] == p[1..] + q;
      CountAppend(p[1..], q, c);
    }
  }

  /** Every call of the filter loop resolves a larger-id item against the
      ball at index i. */
  lemma {:induction false} CollisionsShape(ids: seq<int>, i: int, j: int)
    requires 0 <= i < |ids| && 0 <= j <= |ids|
    ensures forall c :: c in Collisions(ids, i, j) ==>
      c.CollapseCall? && c.second == i && 0 <= c.first < j && ids[c.first] > ids[i]
  {
    if j > 0 {
      CollisionsShape(ids, i, j - 1);
    }
  }

  /** A call that does not occur is counted zero times. */
  lemma {:induction false} CountAbsent(p: seq<Call>, c: Call)
    requires c !in p
    ensures Count(p, c) == 0
    decreases |p|
  {
    if p != [] {
      assert c !in p[1..];
      CountAbsent(p[1..], c);
    }
  }

  /** The filter loop over the first j entries resolves (p, i) once when
      p < j has the larger id, and no other pair. */
  lemma {:induction false} CollisionsCount(ids: seq<int>, i: int, j: int, p: int, q: int)
    requires 0 <= i < |ids| && 0 <= j <= |ids|
    ensures Count(Collisions(ids, i, j), CollapseCall(p, q)) ==
      if q == i && 0 <= p < j && ids[p] > ids[i] then 1 else 0
  {
    if j > 0 {
      CollisionsCount(ids, i, j - 1, p, q);
      var step := if ids[j - 1] > ids[i] then [CollapseCall(j - 1, i)] else [];
      CountAppend(Collisions(ids, i, j - 1), step, CollapseCall(p, q));
      assert Count(step, CollapseCall(p, q)) == if step != [] && p == j - 1 && q == i then 1 else 0 by {
        if step != [] {
          assert step[..0] == [];
        }
      }
    }
  }

  /** A one-call plan counts that call once. */
  lemma CountSingle(x: Call, c: Call)
    ensures Count([x], c) == if x == c then 1 else 0
  {
    assert [x][1..] == [];
  }

  /** Counts in one block, part by part. */
  lemma BlockSplit(ids: seq<int>, i: int, c: Call)
    requires 0 <= i < |ids|
    ensures Count(Block(ids, i), c) ==
      (if BorderTouchCall(i) == c then 1 else 0) + (if StrokeCall(i) == c then 1 else 0) +
      Count(Collisions(ids, i, |ids|), c) + (if MoveCall(i) == c then 1 else 0)
  {
    var head := [BorderTouchCall(i), StrokeCall(i)];
    assert head == [BorderTouchCall(i)] + [StrokeCall(i)];
    CountAppend([BorderTouchCall(i)], [StrokeCall(i)], c);
    CountSingle(BorderTouchCall(i), c);
    CountSingle(StrokeCall(i), c);
    CountSingle(MoveCall(i), c);
    CountAppend(head, Collisions(ids, i, |ids|), c);
    CountAppend(head + Collisions(ids, i, |ids|), [MoveCall(i)], c);
  }

  /** A block's visiting calls are its own ball's. */
  lemma BlockVisits(ids: seq<int>, i: int, c: Call)
    requires 0 <= i < |ids|
    requires c.BorderTouchCall? || c.StrokeCall? || c.MoveCall?
    ensures Count(Block(ids, i), c) == if c.i == i then 1 else 0
  {
    CollisionsShape(ids, i, |ids|);
    CountAbsent(Collisions(ids, i, |ids|), c);
    BlockSplit(ids, i, c);
  }

  /** The first n blocks are the first n - 1 followed by block n - 1. */
  lemma PlanUpToStep(ids: seq<int>, n: int, c: Call)
    requires 0 < n <= |ids|
    ensures Count(PlanUpTo(ids, n), c) == Count(PlanUpTo(ids, n - 1), c) + Count(Block(ids, n - 1), c)
  {
    CountAppend(PlanUpTo(ids, n - 1), Block(ids, n - 1), c);
  }

  /** The induction step of PlanUpToVisit. */
  lemma VisitsStep(ids: seq<int>, n: int, c: Call)
    requires 0 < n <= |ids|
    requires c.BorderTouchCall? || c.StrokeCall? || c.MoveCall?
    requires Count(PlanUpTo(ids, n - 1), c) == if 0 <= c.i < n - 1 then 1 else 0
    ensures Count(PlanUpTo(ids, n), c) == if 0 <= c.i < n then 1 else 0
  {
    BlockVisits(ids, n - 1, c);
    PlanUpToStep(ids, n, c);
  }

  /** The first n blocks visit the balls at indices below n once each. */
  lemma {:induction false} PlanUpToVisit(ids: seq<int>, n: int, c: Call)
    requires 0 <= n <= |ids|
    requires c.BorderTouchCall? || c.StrokeCall? || c.MoveCall?
    ensures Count(PlanUpTo(ids, n), c) == if 0 <= c.i < n then 1 else 0
  {
    if n > 0 {
      PlanUpToVisit(ids, n - 1, c);
      VisitsStep(ids, n, c);
    }
  }

  /** A block resolves only pairs whose second ball is its own. */
  lemma BlockCollapses(ids: seq<int>, i: int, p: int, q: int)
    requires 0 <= i < |ids|
    ensures Count(Block(ids, i), CollapseCall(p, q)) ==
      if q == i && 0 <= p < |ids| && ids[p] > ids[i] then 1 else 0
  {
    CollisionsCount(ids, i, |ids|, p, q);
    BlockSplit(ids, i, CollapseCall(p, q));
  }

  /** The induction step of PlanUpToCollapses. */
  lemma CollapsesStep(ids: seq<int>, n: int, p: int, q: int)
    requires 0 < n <= |ids|
    requires Count(PlanUpTo(ids, n - 1), CollapseCall(p, q)) ==
      if 0 <= q < n - 1 && 0 <= p < |ids| && ids[p] > ids[q] then 1 else 0
    ensures Count(PlanUpTo(ids, n), CollapseCall(p, q)) ==
      if 0 <= q < n && 0 <= p < |ids| && ids[p] > ids[q] then 1 else 0
  {
    BlockCollapses(ids, n - 1, p, q);
    PlanUpToStep(ids, n, CollapseCall(p, q));
  }

  /** The first n blocks resolve (p, q) once if q < n and ids[p] > ids[q]. */
  lemma {:induction false} PlanUpToCollapses(ids: seq<int>, n: int, p: int, q: int)
    requires 0 <= n <= |ids|
    ensures Count(PlanUpTo(ids, n), CollapseCall(p, q)) ==
      if 0 <= q < n && 0 <= p < |ids| && ids[p] > ids[q] then 1 else 0
  {
    if n > 0 {
      PlanUpToCollapses(ids, n - 1, p, q);
      CollapsesStep(ids, n, p, q);
    }
  }

  /** Every ball gets exactly one border check, one stroke check and one
      move per tick. */
  lemma PlanVisitsEachBallOnce(ids: seq<int>, i: int)
    requires 0 <= i < |ids|
    ensures Count(Plan(ids), BorderTouchCall(i)) == 1
    ensures Count(Plan(ids), StrokeCall(i)) == 1
    ensures Count(Plan(ids), MoveCall(i)) == 1
  {
    PlanUpToVisit(ids, |ids|, BorderTouchCall(i));
    PlanUpToVisit(ids, |ids|, StrokeCall(i));
    PlanUpToVisit(ids, |ids|, MoveCall(i));
  }

  /** Each pair of distinct ids is resolved exactly once per tick, with the
      ball of larger id as ball1; the reverse order never occurs. */
  lemma PlanPairOnce(ids: seq<int>, p: int, q: int)
    requires 0 <= p < |ids| && 0 <= q < |ids| && ids[p] > ids[q]
    ensures Count(Plan(ids), CollapseCall(p, q)) == 1
    ensures Count(Plan(ids), CollapseCall(q, p)) == 0
  {
    PlanUpToCollapses(ids, |ids|, p, q);
    PlanUpToCollapses(ids, |ids|, q, p);
  }

  /** The filter of the ball at index i is empty when no earlier entry has
      a larger id. */
  lemma {:induction false} NoLargerIdNoCollisions(ids: seq<int>, i: int, j: int)
    requires 0 <= i < |ids| && 0 <= j <= |ids|
    requires forall m :: 0 <= m < j ==> ids[m] <= ids[i]
    ensures Collisions(ids, i, j) == []
  {
    if j > 0 {
      NoLargerIdNoCollisions(ids, i, j - 1);
    }
  }

  /** The ball with the largest id takes part in collisions only as ball2:
      its own block is the border check, the stroke and the move. */
  lemma LargestIdCollidesNothing(ids: seq<int>, i: int)
    requires 0 <= i < |ids| && forall j :: 0 <= j < |ids| ==> ids[j] <= ids[i]
    ensures Block(ids, i) == [BorderTouchCall(i), StrokeCall(i), MoveCall(i)]
  {
    NoLargerIdNoCollisions(ids, i, |ids|);
  }

  // ---------------------------------------------------------------------
  // Running a plan on values

  /** Every array index a call names is an index of n balls, and a
      collision pairs two different balls. */
  predicate InRange(c: Call, n: int)
  {
    match c
    case BorderTouchCall(i) => 0 <= i < n
    case StrokeCall(i) => 0 <= i < n
    case MoveCall(i) => 0 <= i < n
    case CollapseCall(p, q) => 0 <= p < n && 0 <= q < n && p != q
  }

  predicate AllInRange(p: seq<Call>, n: int)
  {
    forall k :: 0 <= k < |p| ==> InRange(p[k], n)
  }

  /** A tick only names balls of the table. */
  lemma {:induction false} PlanUpToInRange(ids: seq<int>, n: int)
    requires 0 <= n <= |ids|
    ensures AllInRange(PlanUpTo(ids, n), |ids|)
  {
    if n > 0 {
      PlanUpToInRange(ids, n - 1);
      CollisionsShape(ids, n - 1, |ids|);
    }
  }

  /** The table as a value: the ball states by index and the cursor. */
  datatype World = World(balls: seq<BallState>, mouse: CursorState)

  /** One call on the value-level state, with Ball.W, Ball.H,
      Ball.attenuationRatio and the trigonometry `trig`. A call that names
      no ball leaves the state as it is, and so does a collision of two
      balls of radius 0; neither happens on a well-formed table
      (PlanUpToInRange, WellFormed). */
  ghost function Step(w: World, c: Call, W: real, H: real, k: real, trig: Trig): (v: World)
    ensures |v.balls| == |w.balls|
  {
    if !InRange(c, |w.balls|) then w
    else
      match c
      case BorderTouchCall(i) => w.(balls := w.balls[i := BorderTouchBall(w.balls[i], W, H, k)])
      case StrokeCall(i) =>
        var res := Stroke(w.balls[i], w.mouse, w.balls, W, H);
        World(w.balls[i := res.0], res.1)
      case MoveCall(i) => w.(balls := w.balls[i := Move(w.balls[i], w.balls, W, H)])
      case CollapseCall(p, q) =>
        if Cube(w.balls[p].r) + Cube(w.balls[q].r) == 0.0 then w
        else
          var res := Collide(w.balls[p], w.balls[q], k, trig);
          w.(balls := w.balls[p := res.0][q := res.1])
  }

  /** Every call keeps the table well formed. */
  lemma StepKeepsWellFormed(w: World, c: Call, W: real, H: real, k: real, trig: Trig)
    requires WellFormed(w.balls)
    ensures WellFormed(Step(w, c, W, H, k, trig).balls)
  {
    var v := Step(w, c, W, H, k, trig);
    if InRange(c, |w.balls|) {
      match c
      case CollapseCall(p, q) =>
        CollidePreservesWellFormed(w.balls, p, q, k, trig);
      case _ =>
        WellFormedFrame(w.balls, v.balls);
    }
  }

  /** A step function: how one call changes the state. */
  type StepFn = (World, Call) -> World

  /** The step function of a table with these constants. */
  ghost function TickStep(W: real, H: real, k: real, trig: Trig): StepFn
  {
    (w, c) => Step(w, c, W, H, k, trig)
  }

  /** f makes the calls as Step does; the trigger keeps f's applications
      from being unfolded where no Step term is around. */
  ghost predicate StepIs(f: StepFn, W: real, H: real, k: real, trig: Trig)
  {
    forall w, c {:trigger Step(w, c, W, H, k, trig)} :: f(w, c) == Step(w, c, W, H, k, trig)
  }

  /** The calls of p, one after the other. */
  function Run(f: StepFn, w: World, p: seq<Call>): World
    decreases |p|
  {
    if |p| == 0 then w else f(Run(f, w, p[..|p| - 1]), p[|p| - 1])
  }

  /** Running p then q is running p + q. */
  lemma {:induction false} RunAppend(f: StepFn, w: World, p: seq<Call>, q: seq<Call>)
    ensures Run(f, w, p + q) == Run(f, Run(f, w, p), q)
    decreases |q|
  {
    if q == [] {
      assert p + q == p;
    } else {
      var q' := q[..|q| - 1];
      RunAppend(f, w, p, q');
      assert (p + q)[..|p + q| - 1] == p + q';
      assert (p + q)[|p + q| - 1] == q[|q| - 1];
    }
  }

  /** Running a tick keeps the table well formed. */
  lemma {:induction false} RunKeepsWellFormed(w: World, p: seq<Call>, W: real, H: real, k: real, trig: Trig)
    requires WellFormed(w.balls)
    ensures WellFormed(Run(TickStep(W, H, k, trig), w, p).balls)
    ensures |Run(TickStep(W, H, k, trig), w, p).balls| == |w.balls|
    decreases |p|
  {
    if |p| > 0 {
      RunKeepsWellFormed(w, p[..|p| - 1], W, H, k, trig);
      StepKeepsWellFormed(Run(TickStep(W, H, k, trig), w, p[..|p| - 1]), p[|p| - 1], W, H, k, trig);
    }
  }

  /** A grip names no ball or a ball of the table. */
  predicate GripValid(w: World)
  {
    w.mouse.ball == -1 || 0 <= w.mouse.ball < |w.balls|
  }

  /** A step never makes the cursor grip something that is not a ball:
      handleStroke only records the id of the ball it moves. */
  lemma StepKeepsGrip(w: World, c: Call, W: real, H: real, k: real, trig: Trig)
    requires WellFormed(w.balls) && GripValid(w)
    ensures GripValid(Step(w, c, W, H, k, trig))
  {
  }

  /** Running a tick keeps the grip valid. */
  lemma {:induction false} RunKeepsGrip(w: World, p: seq<Call>, W: real, H: real, k: real, trig: Trig)
    requires WellFormed(w.balls) && GripValid(w)
    ensures GripValid(Run(TickStep(W, H, k, trig), w, p))
    decreases |p|
  {
    if |p| > 0 {
      var f := TickStep(W, H, k, trig);
      RunKeepsGrip(w, p[..|p| - 1], W, H, k, trig);
      RunKeepsWellFormed(w, p[..|p| - 1], W, H, k, trig);
      StepKeepsGrip(Run(f, w, p[..|p| - 1]), p[|p| - 1], W, H, k, trig);
    }
  }

  // ---------------------------------------------------------------------
  // The same tick, block by block

  /** The filter loop for the ball at index i over the first j entries. */
  function RunCollisions(f: StepFn, w: World, ids: seq<int>, i: int, j: int): World
    requires 0 <= i < |ids| && 0 <= j <= |ids|
  {
    if j == 0 then w
    else
      var v := RunCollisions(f, w, ids, i, j - 1);
      if ids[j - 1] > ids[i] then f(v, CollapseCall(j - 1, i)) else v
  }

  /** The body of the forEach for the ball at index i. */
  function Visit(f: StepFn, w: World, ids: seq<int>, i: int): World
    requires 0 <= i < |ids|
  {
    f(RunCollisions(f, f(f(w, BorderTouchCall(i)), StrokeCall(i)), ids, i, |ids|), MoveCall(i))
  }

  /** The filter loop runs exactly the calls Collisions lists. */
  lemma {:induction false} RunCollisionsIsRun(f: StepFn, w: World, ids: seq<int>, i: int, j: int)
    requires 0 <= i < |ids| && 0 <= j <= |ids|
    ensures RunCollisions(f, w, ids, i, j) == Run(f, w, Collisions(ids, i, j))
  {
    if j > 0 {
      RunCollisionsIsRun(f, w, ids, i, j - 1);
      var cs := Collisions(ids, i, j - 1);
      if ids[j - 1] > ids[i] {
        assert (cs + [CollapseCall(j - 1, i)])[..|cs|] == cs;
      } else {
        assert Collisions(ids, i, j) == cs;
      }
    }
  }

  /** The first two calls of a visit. */
  lemma HeadIsRun(f: StepFn, w: World, i: int)
    ensures Run(f, w, [BorderTouchCall(i), StrokeCall(i)]) == f(f(w, BorderTouchCall(i)), StrokeCall(i))
  {
    var head := [BorderTouchCall(i), StrokeCall(i)];
    assert head[..1] == [BorderTouchCall(i)];
    assert head[..1][..0] == [];
    assert Run(f, w, head[..1]) == f(w, BorderTouchCall(i));
  }

  /** A visit runs exactly the calls of its block. */
  lemma VisitIsRun(f: StepFn, w: World, ids: seq<int>, i: int)
    requires 0 <= i < |ids|
    ensures Visit(f, w, ids, i) == Run(f, w, Block(ids, i))
  {
    var head := [BorderTouchCall(i), StrokeCall(i)];
    var cs := Collisions(ids, i, |ids|);
    HeadIsRun(f, w, i);
    RunCollisionsIsRun(f, Run(f, w, head), ids, i, |ids|);
    RunAppend(f, w, head, cs);
    var b := head + cs + [MoveCall(i)];
    assert b[..|b| - 1] == head + cs;
    assert Run(f, w, b) == f(Run(f, w, head + cs), MoveCall(i));
  }

  /** Running the first n blocks is running the first n - 1, then block
      n - 1. */
  lemma RunPlanUpToStep(f: StepFn, w: World, ids: seq<int>, n: int)
    requires 0 < n <= |ids|
    ensures Run(f, w, PlanUpTo(ids, n)) == Run(f, Run(f, w, PlanUpTo(ids, n - 1)), Block(ids, n - 1))
  {
    RunAppend(f, w, PlanUpTo(ids, n - 1), Block(ids, n - 1));
  }

  /** Visiting the ball at index i after the first i visits runs the plan
      one block further. */
  lemma VisitExtendsPlan(f: StepFn, w0: World, ids: seq<int>, i: int, cur: World)
    requires 0 <= i < |ids| && cur == Run(f, w0, PlanUpTo(ids, i))
    ensures Visit(f, cur, ids, i) == Run(f, w0, PlanUpTo(ids, i + 1))
  {
    VisitIsRun(f, cur, ids, i);
    RunPlanUpToStep(f, w0, ids, i + 1);
  }

  /** The ids of the balls, in array order. */
  function Ids(s: seq<BallState>): (ids: seq<int>)
    ensures |ids| == |s| && forall i :: 0 <= i < |s| ==> ids[i] == s[i].id
  {
    seq(|s|, i requires 0 <= i < |s| => s[i].id)
  }

  // ---------------------------------------------------------------------
  // The update callback

  /** The update callback of the animation: one tick over Ball.balls with
      the shared cursor. */
  method Update(reg: Registry, mouse: Mouse, trig: Trig)
    requires reg.Valid()
    modifies reg.balls, mouse
    ensures reg.Valid()
    ensures World(reg.States(), mouse.State())
      == Run(TickStep(reg.W, reg.H, reg.attenuationRatio, trig),
             old(World(reg.States(), mouse.State())), Plan(Ids(old(reg.States()))))
  {
    ghost var w0 := World(reg.States(), mouse.State());
    ghost var ids := Ids(reg.States());
    ghost var f := TickStep(reg.W, reg.H, reg.attenuationRatio, trig);
    reg.IdsAreIndices();
    TickAll(reg, mouse, trig, f, w0, ids);
  }

  /** What holds before the forEach visits the ball at index i: the
      table is well formed and the world is the one the first i visits
      leave. */
  ghost predicate Ticking(reg: Registry, mouse: Mouse, trig: Trig, f: StepFn, w0: World, ids: seq<int>, i: int)
    reads reg, reg.balls, mouse
  {
    && reg.Valid() && 0 <= i <= |reg.balls|
    && |ids| == |reg.balls| && (forall j :: 0 <= j < |ids| ==> ids[j] == j)
    && StepIs(f, reg.W, reg.H, reg.attenuationRatio, trig)
    && World(reg.States(), mouse.State()) == Run(f, w0, PlanUpTo(ids, i))
  }

  /** The forEach of the update callback. */
  method TickAll(reg: Registry, mouse: Mouse, trig: Trig, ghost f: StepFn, ghost w0: World, ghost ids: seq<int>)
    requires Ticking(reg, mouse, trig, f, w0, ids, 0)
    modifies reg.balls, mouse
    ensures Ticking(reg, mouse, trig, f, w0, ids, |ids|)
  {
    var i := 0;
    while i < |reg.balls|
      invariant Ticking(reg, mouse, trig, f, w0, ids, i)
    {
      var ball := reg.balls[i];
      TickBall(reg, mouse, trig, ball, f, w0, ids, i);
      i := i + 1;
    }
  }

  /** The calls of Update for the ball at index i. */
  method TickBall(reg: Registry, mouse: Mouse, trig: Trig, ball: Ball,
                  ghost f: StepFn, ghost w0: World, ghost ids: seq<int>, i: int)
    requires Ticking(reg, mouse, trig, f, w0, ids, i) && i < |reg.balls| && ball == reg.balls[i]
    modifies reg.balls, mouse
    ensures Ticking(reg, mouse, trig, f, w0, ids, i + 1)
  {
    ghost var cur := World(reg.States(), mouse.State());
    TickBorderTouch(reg, mouse, trig, ball, i);
    TickStroke(reg, mouse, trig, ball, i);
    TickCollisions(reg, mouse, trig, ball, f, World(reg.States(), mouse.State()), ids, i);
    TickMove(reg, mouse, trig, ball, i);
    assert World(reg.States(), mouse.State()) == Visit(f, cur, ids, i);
    VisitExtendsPlan(f, w0, ids, i, cur);
  }

  /** What holds before the filter loop of the ball at index i looks at
      index j: the world is the one the first j candidates leave. */
  ghost predicate Colliding(reg: Registry, mouse: Mouse, trig: Trig, f: StepFn, w: World, ids: seq<int>, i: int, j: int)
    reads reg, reg.balls, mouse
  {
    && reg.Valid() && 0 <= i < |reg.balls| && 0 <= j <= |reg.balls|
    && |ids| == |reg.balls| && (forall k :: 0 <= k < |ids| ==> ids[k] == k)
    && StepIs(f, reg.W, reg.H, reg.attenuationRatio, trig)
    && World(reg.States(), mouse.State()) == RunCollisions(f, w, ids, i, j)
  }

  /** The filter loop of one ball: every ball with a larger id, in array
      order, collides with it, the larger-id ball as ball1. */
  method TickCollisions(reg: Registry, mouse: Mouse, trig: Trig, ball: Ball,
                        ghost f: StepFn, ghost w: World, ghost ids: seq<int>, i: int)
    requires Colliding(reg, mouse, trig, f, w, ids, i, 0) && ball == reg.balls[i]
    modifies reg.balls
    ensures Colliding(reg, mouse, trig, f, w, ids, i, |ids|)
  {
    var j := 0;
    while j < |reg.balls|
      invariant Colliding(reg, mouse, trig, f, w, ids, i, j)
    {
      TickCandidate(reg, mouse, trig, ball, f, w, ids, i, j);
      j := j + 1;
    }
  }

  /** One pass of the filter loop: the ball at index j collides with the
      ball at index i when its id is larger. */
  method TickCandidate(reg: Registry, mouse: Mouse, trig: Trig, ball: Ball,
                       ghost f: StepFn, ghost w: World, ghost ids: seq<int>, i: int, j: int)
    requires Colliding(reg, mouse, trig, f, w, ids, i, j) && j < |reg.balls| && ball == reg.balls[i]
    modifies reg.balls
    ensures Colliding(reg, mouse, trig, f, w, ids, i, j + 1)
  {
    reg.IdsAreIndices();
    var item := reg.balls[j];
    if item.id > ball.id {
      TickCollapse(reg, mouse, trig, item, ball, j, i);
    }
  }

  /** ball.handleBorderTouch() as one step of the plan. */
  method TickBorderTouch(reg: Registry, mouse: Mouse, trig: Trig, ball: Ball, i: int)
    requires reg.Valid() && 0 <= i < |reg.balls| && ball == reg.balls[i]
    modifies ball
    ensures reg.Valid()
    ensures World(reg.States(), mouse.State())
      == Step(old(World(reg.States(), mouse.State())), BorderTouchCall(i), reg.W, reg.H, reg.attenuationRatio, trig)
  {
    ghost var s := reg.States();
    reg.IdsAreIndices();
    ball.HandleBorderTouch(reg);
    assert reg.States() == s[i := ball.State()];
    WellFormedFrame(s, reg.States());
  }

  /** ball.handleStroke(mouse) as one step of the plan. */
  method TickStroke(reg: Registry, mouse: Mouse, trig: Trig, ball: Ball, i: int)
    requires reg.Valid() && 0 <= i < |reg.balls| && ball == reg.balls[i]
    modifies ball, mouse
    ensures reg.Valid()
    ensures World(reg.States(), mouse.State())
      == Step(old(World(reg.States(), mouse.State())), StrokeCall(i), reg.W, reg.H, reg.attenuationRatio, trig)
  {
    reg.IdsAreIndices();
    ball.HandleStroke(reg, mouse);
  }

  /** Ball.handleCollapse(item, ball) as one step of the plan. */
  method TickCollapse(reg: Registry, mouse: Mouse, trig: Trig, item: Ball, ball: Ball, j: int, i: int)
    requires reg.Valid() && 0 <= j < |reg.balls| && 0 <= i < |reg.balls| && j != i
    requires item == reg.balls[j] && ball == reg.balls[i]
    modifies item, ball
    ensures reg.Valid()
    ensures World(reg.States(), mouse.State())
      == Step(old(World(reg.States(), mouse.State())), CollapseCall(j, i), reg.W, reg.H, reg.attenuationRatio, trig)
  {
    reg.IdsAreIndices();
    Ball.HandleCollapse(reg, item, ball, trig);
  }

  /** ball.move() as one step of the plan. */
  method TickMove(reg: Registry, mouse: Mouse, trig: Trig, ball: Ball, i: int)
    requires reg.Valid() && 0 <= i < |reg.balls| && ball == reg.balls[i]
    modifies ball
    ensures reg.Valid()
    ensures World(reg.States(), mouse.State())
      == Step(old(World(reg.States(), mouse.State())), MoveCall(i), reg.W, reg.H, reg.attenuationRatio, trig)
  {
    reg.IdsAreIndices();
    ball.Move(reg);
  }
}
