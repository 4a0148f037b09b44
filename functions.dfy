/** The earlier, self-contained engine of src/functions/functions.ts: its
    own Mouse, its own Ball (per-ball attenuation ratio, no clamping, no
    contact test on grip), setBalls and the two velocity kernels.

    The conventions of module Utils carry over: square roots become
    comparisons of squares, cos/sin of the collision angle come from a
    `Trig` parameter, Math.random() is a finite draw sequence, and the
    300 ms border timer is an explicit expiry method. generateColor,
    generateR and generateCoordinates of this file are the same code as
    generateColor, generateRadius and generateCoordinates of
    src/functions/utils.ts and are taken from module Utils. */
module EarlyEngine {
  import opened Utils
  import BR = BallRules
  import Balls

  // ---------------------------------------------------------------------
  // Mouse and trackMouse

  /** The fields of the early Mouse, as a value. */
  datatype MouseState = MouseState(x: real, y: real, dX: real, dY: real, timestamp: real, isBall: bool, ball: int)

  class Mouse {
    var x: real
    var y: real
    var dX: real
    var dY: real
    var timestamp: real
    var isBall: bool
    /** id of the gripped ball, -1 for none */
    var ball: int

    function State(): MouseState
      reads this
    {
      MouseState(x, y, dX, dY, timestamp, isBall, ball)
    }

    constructor ()
      ensures State() == MouseState(0.0, 0.0, 0.0, 0.0, 0.0, false, -1)
    {
      x, y, dX, dY, timestamp := 0.0, 0.0, 0.0, 0.0, 0.0;
      isBall := false;
      ball := -1;
    }

    /** mousemoveHandler: position relative to the canvas; the raw deltas
        are kept until the next sample (no decay timer in this engine). */
    method OnMove(clientX: real, clientY: real, left: real, top: real, movementX: real, movementY: real, timeStamp: real)
      modifies this
      ensures State() == old(State()).(x := clientX - left, y := clientY - top, dX := movementX, dY := movementY, timestamp := timeStamp)
    {
      x := clientX - left;
      y := clientY - top;
      dX := movementX;
      dY := movementY;
      timestamp := timeStamp;
    }

    /** mouseleaveHandler: release the button and the grip. */
    method OnLeave()
      modifies this
      ensures State() == old(State()).(isBall := false, ball := -1)
    {
      isBall := false;
      ball := -1;
    }

    /** mousedownHandler: the main button (0) arms the grip; the right
        button (2) only logs. */
    method OnDown(button: int)
      modifies this
      ensures State() == if button == 0 then old(State()).(isBall := true) else old(State())
    {
      if button == 0 {
        isBall := true;
      }
    }

    /** mouseupHandler: releasing the main button releases the grip. */
    method OnUp(button: int)
      modifies this
      ensures State() == if button == 0 then old(State()).(isBall := false, ball := -1) else old(State())
    {
      if button == 0 {
        isBall := false;
        ball := -1;
      }
    }
  }

  // ---------------------------------------------------------------------
  // The handleCollapse kernel

  /** The rotated-frame quantities of the handleCollapse kernel. */
  datatype Frame = Frame(vx1alpha: real, vy1alpha: real, vx2alpha: real, vy2alpha: real, uy1alpha: real, uy2alpha: real)

  /** The components of both velocities along and across the collision
      normal, and the new normal components uy1alpha and uy2alpha. */
  function CollapseFrame(d: CollapseData, t: Rot): Frame
    requires Cube(d.r1) + Cube(d.r2) != 0.0
  {
    var c, s := t.cos, t.sin;
    var vy1alpha := d.vx1 * s + d.vy1 * c;
    var vy2alpha := -d.vx2 * s - d.vy2 * c;
    var u := NormalSpeeds(vy1alpha, vy2alpha, d.r1, d.r2);
    Frame(d.vx1 * c - d.vy1 * s, vy1alpha, d.vx2 * c - d.vy2 * s, vy2alpha, u.0, u.1)
  }

  /** In the rotated frame the new normal components differ by the negated
      old difference, and with equal radii ball 1 takes ball 2's normal
      component. */
  lemma CollapseFrameNormal(d: CollapseData, t: Rot)
    requires Cube(d.r1) + Cube(d.r2) != 0.0
    ensures var f := CollapseFrame(d, t);
      && f.uy2alpha - f.uy1alpha == f.vy1alpha - f.vy2alpha
      && (d.r1 == d.r2 ==> f.uy1alpha == f.vy2alpha && f.uy2alpha == f.vy1alpha)
  {
    var f := CollapseFrame(d, t);
    if d.r1 == d.r2 {
      NormalEqualRadii(f.vy1alpha, f.vy2alpha, d.r1);
    }
  }

  /** handleCollapse(data): the rotated components turned back and
      multiplied by attenuationRatio. */
  function CollapseKernel(d: CollapseData, trig: Trig): (v: Speeds)
    requires Cube(d.r1) + Cube(d.r2) != 0.0
    ensures d.attenuationRatio == 0.0 ==> v == Speeds(0.0, 0.0, 0.0, 0.0)
  {
    var t := trig(CollisionAngle(d.x1, d.y1, d.x2, d.y2));
    var c, s, k := t.cos, t.sin, d.attenuationRatio;
    var f := CollapseFrame(d, t);
    Speeds((f.vx1alpha * c - f.uy1alpha * s) * k,
           (-f.vx1alpha * s + f.uy1alpha * c) * k,
           (f.vx2alpha * c - f.uy2alpha * s) * k,
           (-f.vx2alpha * s + f.uy2alpha * c) * k)
  }

  /** With equal radii the kernel exchanges the two normal components and
      keeps each tangential one. */
  lemma CollapseKernelEqualRadii(d: CollapseData, trig: Trig)
    requires d.r1 == d.r2 && Cube(d.r1) + Cube(d.r2) != 0.0
    ensures var t := trig(CollisionAngle(d.x1, d.y1, d.x2, d.y2));
      var c, s, k := t.cos, t.sin, d.attenuationRatio;
      var f := CollapseFrame(d, t);
      CollapseKernel(d, trig) ==
        Speeds((f.vx1alpha * c - f.vy2alpha * s) * k,
               (-f.vx1alpha * s + f.vy2alpha * c) * k,
               (f.vx2alpha * c - f.vy1alpha * s) * k,
               (-f.vx2alpha * s + f.vy1alpha * c) * k)
  {
    var t := trig(CollisionAngle(d.x1, d.y1, d.x2, d.y2));
    CollapseFrameNormal(d, t);
  }

  /** Against getSpeeds of src/functions/utils.ts: the same angle, frame
      and normal step, and the same outputs except vx2New, whose sign is
      the opposite. */
  lemma CollapseKernelAgainstGetSpeeds(d: CollapseData, trig: Trig)
    requires Cube(d.r1) + Cube(d.r2) != 0.0
    ensures var v, w := CollapseKernel(d, trig), GetSpeeds(d, trig);
      v.vx1New == w.vx1New && v.vy1New == w.vy1New && v.vy2New == w.vy2New && v.vx2New == -w.vx2New
  {
    var t := trig(CollisionAngle(d.x1, d.y1, d.x2, d.y2));
    var c, s, k := t.cos, t.sin, d.attenuationRatio;
    var f := CollapseFrame(d, t);
    var raw := RawSpeeds(d, t);
    assert raw.vx2New == -f.vx2alpha * c + f.uy2alpha * s;
    assert (f.vx2alpha * c - f.uy2alpha * s) * k == -(raw.vx2New * k);
  }

  // ---------------------------------------------------------------------
  // The handleStroke kernel

  datatype StrokeSpeeds = StrokeSpeeds(vx1New: real, vy1New: real)

  /** handleStroke(data): ball 1's velocity after a hit by a body moving
      with (vx2, vy2); the radii are not used. */
  function StrokeKernel(d: CollapseData, trig: Trig): (v: StrokeSpeeds)
    ensures d.attenuationRatio == 0.0 ==> v == StrokeSpeeds(0.0, 0.0)
  {
    var t := trig(CollisionAngle(d.x1, d.y1, d.x2, d.y2));
    var c, s, k := t.cos, t.sin, d.attenuationRatio;
    var vx1alpha := d.vx1 * c - d.vy1 * s;
    var vy1alpha := d.vx1 * s + d.vy1 * c;
    var vy2alpha := -d.vx2 * s - d.vy2 * c;
    var uy1alpha := -vy2alpha - vy1alpha;
    StrokeSpeeds((vx1alpha * c + uy1alpha * s) * k, (-vx1alpha * s + uy1alpha * c) * k)
  }

  /** A body at rest reverses ball 1's normal component: uy1alpha is
      -vy1alpha, and the tangential component is kept. */
  lemma StrokeKernelAtRest(d: CollapseData, trig: Trig)
    requires d.vx2 == 0.0 && d.vy2 == 0.0
    ensures var t := trig(CollisionAngle(d.x1, d.y1, d.x2, d.y2));
      var c, s, k := t.cos, t.sin, d.attenuationRatio;
      var vx1alpha, vy1alpha := d.vx1 * c - d.vy1 * s, d.vx1 * s + d.vy1 * c;
      StrokeKernel(d, trig) == StrokeSpeeds((vx1alpha * c - vy1alpha * s) * k, (-vx1alpha * s - vy1alpha * c) * k)
  {
  }

  /** The stroke kernel is linear in attenuationRatio. */
  lemma StrokeKernelScales(d: CollapseData, trig: Trig, k: real)
    ensures var v, w := StrokeKernel(d.(attenuationRatio := k), trig), StrokeKernel(d.(attenuationRatio := 1.0), trig);
      v == StrokeSpeeds(w.vx1New * k, w.vy1New * k)
  {
  }

  // ---------------------------------------------------------------------
  // Ball, as a value

  /** The fields of the early Ball, as a value; `contacts` is the Set
      collapseWith in insertion order. */
  datatype BallState = BallState(
    id: int, x: real, y: real, r: real, color: string,
    vx: real, vy: real, attenuationRatio: real, contacts: seq<int>, border: BR.Border)

  /** The same ball as seen by the live engine of src/objects/ball.ts,
      which keeps the ratio in a static instead. */
  function Live(b: BallState): BR.BallState
  {
    BR.BallState(b.id, b.x, b.y, b.r, b.color, b.vx, b.vy, b.contacts, b.border)
  }

  /** handleBorderTouch(W, H), with the ball's own attenuationRatio. */
  function BorderTouchBall(b: BallState, W: real, H: real): (res: BallState)
    ensures res.(vx := b.vx, vy := b.vy, border := b.border) == b
  {
    var m := BR.BorderTouch(BR.Motion(b.vx, b.vy, b.border), b.x, b.y, b.r, W, H, b.attenuationRatio);
    b.(vx := m.vx, vy := m.vy, border := m.border)
  }

  /** The early wall rule is the live one with the ball's own ratio in
      place of Ball.attenuationRatio. */
  lemma BorderTouchAgrees(b: BallState, W: real, H: real)
    ensures Live(BorderTouchBall(b, W, H)) == BR.BorderTouchBall(Live(b), W, H, b.attenuationRatio)
  {
  }

  /** With a ratio in [0, 1] a wall bounce never adds speed. */
  lemma BorderTouchBallEnergy(b: BallState, W: real, H: real)
    requires 0.0 <= b.attenuationRatio <= 1.0
    ensures var n := BorderTouchBall(b, W, H);
      Sq(n.vx) + Sq(n.vy) <= Sq(b.vx) + Sq(b.vy)
  {
    BR.BorderTouchEnergy(BR.Motion(b.vx, b.vy, b.border), b.x, b.y, b.r, W, H, b.attenuationRatio);
  }

  /** The grip condition of handleStroke: the centre distance is at most
      r, the button is down and the cursor grips nothing or this ball.
      Contacts are not consulted. */
  predicate Grips(b: BallState, m: MouseState)
  {
    IsTouching(GetDistance(b.x, b.y, b.r, m.x, m.y, 0.0)) && m.isBall && (m.ball == -1 || m.ball == b.id)
  }

  /** The grip test in squares. */
  lemma GripsInSquares(b: BallState, m: MouseState)
    ensures Grips(b, m) <==>
      && 0.0 <= b.r && Sq(b.x - m.x) + Sq(b.y - m.y) <= Sq(b.r)
      && m.isBall && (m.ball == -1 || m.ball == b.id)
  {
  }

  /** handleStroke(mouse): a gripped ball jumps to the cursor, unclamped,
      and takes the cursor's deltas as its velocity. */
  function Stroke(b: BallState, m: MouseState): (res: (BallState, MouseState))
  {
    if Grips(b, m) then (b.(x := m.x, y := m.y, vx := m.dX, vy := m.dY), m.(ball := b.id))
    else (b, m)
  }

  /** Stroke changes something only under the grip condition; it never
      changes id, radius, ratio, contacts or border. */
  lemma StrokeFrame(b: BallState, m: MouseState)
    ensures var res := Stroke(b, m);
      && (!Grips(b, m) ==> res == (b, m))
      && res.0.(x := b.x, y := b.y, vx := b.vx, vy := b.vy) == b
      && res.1.(ball := m.ball) == m
  {
  }

  /** Repeating the stroke with the same cursor changes nothing more:
      the ball sits under the cursor, which grips it. */
  lemma StrokeIdempotent(b: BallState, m: MouseState)
    requires 0.0 <= b.r
    ensures var res := Stroke(b, m);
      Stroke(res.0, res.1) == res
  {
    var res := Stroke(b, m);
    if Grips(b, m) {
      assert Sq(res.0.x - res.1.x) + Sq(res.0.y - res.1.y) == 0.0;
      assert Grips(res.0, res.1);
    }
  }

  /** Once one ball is gripped no other ball can be gripped through the
      same cursor state. */
  lemma StrokeExclusive(b1: BallState, b2: BallState, m: MouseState)
    requires Grips(b1, m) && b1.id != -1 && b2.id != b1.id
    ensures !Grips(b2, Stroke(b1, m).1)
  {
  }

  /** move(): the unclamped step. */
  function Moved(b: BallState): BallState
  {
    b.(x := b.x + b.vx, y := b.y + b.vy)
  }

  /** n calls of move() with nothing in between. */
  function Drift(b: BallState, n: nat): BallState
  {
    if n == 0 then b else Moved(Drift(b, n - 1))
  }

  /** Without clamping, n moves are a straight line: nothing keeps the ball
      on the table except handleBorderTouch changing its velocity. */
  lemma {:induction false} DriftIsLinear(b: BallState, n: nat)
    ensures Drift(b, n) == b.(x := b.x + n as real * b.vx, y := b.y + n as real * b.vy)
  {
    if n > 0 {
      DriftIsLinear(b, n - 1);
      assert (n - 1) as real * b.vx + b.vx == n as real * b.vx;
      assert (n - 1) as real * b.vy + b.vy == n as real * b.vy;
    }
  }

  /** The argument of the kernel call in handleCollapse: ball 1's ratio. */
  function DataOf(b1: BallState, b2: BallState): CollapseData
  {
    CollapseData(b1.x, b1.y, b1.r, b1.vx, b1.vy, b2.x, b2.y, b2.r, b2.vx, b2.vy, b1.attenuationRatio)
  }

  function GapOf(b1: BallState, b2: BallState): Gap
  {
    GetDistance(b1.x, b1.y, b1.r, b2.x, b2.y, b2.r)
  }

  /** Ball.handleCollapse(ball1, ball2): the contact rule of the live
      engine, with the kernel of this file on a new contact. */
  function Collide(b1: BallState, b2: BallState, trig: Trig): (res: (BallState, BallState))
    requires Cube(b1.r) + Cube(b2.r) != 0.0
  {
    var u := BR.ContactStep(b1.contacts, b2.contacts, b1.id, b2.id, GapOf(b1, b2));
    if u.impulse then
      var v := CollapseKernel(DataOf(b1, b2), trig);
      (b1.(contacts := u.c1, vx := v.vx1New, vy := v.vy1New),
       b2.(contacts := u.c2, vx := v.vx2New, vy := v.vy2New))
    else
      (b1.(contacts := u.c1), b2.(contacts := u.c2))
  }

  /** Entry, hold and separation: a new contact adds both ids and applies
      the kernel; an existing contact changes nothing; a positive gap
      removes both ids and keeps the velocities. Positions never change. */
  lemma CollideRules(b1: BallState, b2: BallState, trig: Trig)
    requires Cube(b1.r) + Cube(b2.r) != 0.0
    ensures var res := Collide(b1, b2, trig);
      && (IsTouching(GapOf(b1, b2)) && b2.id !in b1.contacts ==>
            var v := CollapseKernel(DataOf(b1, b2), trig);
            && res.0 == b1.(contacts := BR.Added(b1.contacts, b2.id), vx := v.vx1New, vy := v.vy1New)
            && res.1 == b2.(contacts := BR.Added(b2.contacts, b1.id), vx := v.vx2New, vy := v.vy2New))
      && (IsTouching(GapOf(b1, b2)) && b2.id in b1.contacts ==> res == (b1, b2))
      && (GapOf(b1, b2) == Positive ==>
            && res.0 == b1.(contacts := BR.Removed(b1.contacts, b2.id))
            && res.1 == b2.(contacts := BR.Removed(b2.contacts, b1.id)))
  {
    BR.ContactStepCases(b1.contacts, b2.contacts, b1.id, b2.id, GapOf(b1, b2));
  }

  /** Ids are indices, contact sets are duplicate-free, name other balls
      of the array only, and agree pairwise. */
  ghost predicate Consistent(s: seq<BallState>)
  {
    && (forall i :: 0 <= i < |s| ==> s[i].id == i && BR.NoDup(s[i].contacts))
    && (forall i, c :: 0 <= i < |s| && c in s[i].contacts ==> 0 <= c < |s| && c != i)
    && (forall i, j :: 0 <= i < |s| && 0 <= j < |s| ==> (s[j].id in s[i].contacts <==> s[i].id in s[j].contacts))
  }

  /** Replacing the contact sets of two distinct balls by the result of the
      contact rule keeps the array consistent. */
  lemma ContactStepKeepsConsistent(s: seq<BallState>, t: seq<BallState>, i: int, j: int, g: Gap)
    requires Consistent(s) && 0 <= i < |s| && 0 <= j < |s| && i != j && |t| == |s|
    requires forall p :: 0 <= p < |s| ==> t[p].id == s[p].id
    requires forall p :: 0 <= p < |s| && p != i && p != j ==> t[p].contacts == s[p].contacts
    requires var u := BR.ContactStep(s[i].contacts, s[j].contacts, i, j, g);
      t[i].contacts == u.c1 && t[j].contacts == u.c2
    ensures Consistent(t)
  {
    BR.ContactStepCases(s[i].contacts, s[j].contacts, i, j, g);
    BR.ContactStepAgrees(s[i].contacts, s[j].contacts, i, j, g);
    forall p, q | 0 <= p < |t| && 0 <= q < |t|
      ensures t[q].id in t[p].contacts <==> t[p].id in t[q].contacts
    {
      if !((p == i && q == j) || (p == j && q == i)) {
        assert q in t[p].contacts <==> q in s[p].contacts;
        assert p in t[q].contacts <==> p in s[q].contacts;
      }
    }
  }

  /** handleCollapse on two distinct balls of a consistent array keeps it
      consistent; in particular contact stays symmetric, and afterwards the
      pair is in contact exactly when the gap is not positive. */
  lemma CollidePreservesConsistent(s: seq<BallState>, i: int, j: int, trig: Trig)
    requires Consistent(s) && 0 <= i < |s| && 0 <= j < |s| && i != j
    requires Cube(s[i].r) + Cube(s[j].r) != 0.0
    ensures var res := Collide(s[i], s[j], trig);
      && Consistent(s[i := res.0][j := res.1])
      && (j in res.0.contacts <==> IsTouching(GapOf(s[i], s[j])))
  {
    var res := Collide(s[i], s[j], trig);
    var g := GapOf(s[i], s[j]);
    BR.ContactStepAgrees(s[i].contacts, s[j].contacts, i, j, g);
    assert res.0.contacts == BR.ContactStep(s[i].contacts, s[j].contacts, i, j, g).c1;
    ContactStepKeepsConsistent(s, s[i := res.0][j := res.1], i, j, g);
  }

  // ---------------------------------------------------------------------
  // Ball

  class Ball {
    const id: int
    const r: real
    const attenuationRatio: real
    var x: real
    var y: real
    var color: string
    var vx: real
    var vy: real
    /** the Set collapseWith, in insertion order */
    var collapseWith: seq<int>
    var border: BR.Border

    /** border reset timers scheduled and not fired yet */
    ghost var pendingResets: nat

    function State(): BallState
      reads this
    {
      BallState(id, x, y, r, color, vx, vy, attenuationRatio, collapseWith, border)
    }

    constructor (id: int, x0: real, y0: real, r: real, color: string, attenuationRatio: real)
      ensures State() == BallState(id, x0, y0, r, color, 0.0, 0.0, attenuationRatio, [], BR.NoBorder)
      ensures pendingResets == 0
    {
      this.id := id;
      this.r := r;
      this.attenuationRatio := attenuationRatio;
      x, y := x0, y0;
      this.color := color;
      vx, vy := 0.0, 0.0;
      collapseWith := [];
      border := BR.NoBorder;
      pendingResets := 0;
    }

    /** setBorder(brd): record the wall and schedule its reset. */
    method SetBorder(brd: BR.Border)
      modifies this
      ensures State() == old(State()).(border := brd)
      ensures pendingResets == old(pendingResets) + 1
    {
      border := brd;
      pendingResets := pendingResets + 1;
    }

    /** One scheduled border reset fires. */
    method ExpireBorder()
      requires pendingResets > 0
      modifies this
      ensures State() == old(State()).(border := BR.NoBorder)
      ensures pendingResets == old(pendingResets) - 1
    {
      border := BR.NoBorder;
      pendingResets := pendingResets - 1;
    }

    /** handleBorderTouch(W, H). As in the live engine, each branch's
        velocity update is carried in `m` and stored at the end, and the
        border goes through setBorder branch by branch. */
    method HandleBorderTouch(W: real, H: real)
      modifies this
      ensures State() == BorderTouchBall(old(State()), W, H)
      ensures pendingResets >= old(pendingResets)
      ensures border != old(border) ==> pendingResets > old(pendingResets)
    {
      var k := attenuationRatio;
      ghost var b0 := State();
      ghost var m0 := BR.Motion(vx, vy, border);
      var m := BR.Motion(vx, vy, border);
      BR.BounceRule(m, BR.Left, x, y, r, W, H, k);
      ghost var m1 := BR.Bounce(m, BR.Left, x, y, r, W, H, k);
      if x - r <= 0.0 && border != BR.Left {
        m := BR.Motion(-m.vx * k, m.vy * k, BR.Left);
        SetBorder(BR.Left);
      }
      assert m == m1 && border == m.border;
      BR.BounceRule(m, BR.Right, x, y, r, W, H, k);
      ghost var m2 := BR.Bounce(m, BR.Right, x, y, r, W, H, k);
      if x + r >= W && border != BR.Right {
        m := BR.Motion(-m.vx * k, m.vy * k, BR.Right);
        SetBorder(BR.Right);
      }
      assert m == m2 && border == m.border;
      BR.BounceRule(m, BR.Top, x, y, r, W, H, k);
      ghost var m3 := BR.Bounce(m, BR.Top, x, y, r, W, H, k);
      if y - r <= 0.0 && border != BR.Top {
        m := BR.Motion(m.vx * k, -m.vy * k, BR.Top);
        SetBorder(BR.Top);
      }
      assert m == m3 && border == m.border;
      BR.BounceRule(m, BR.Bottom, x, y, r, W, H, k);
      ghost var m4 := BR.Bounce(m, BR.Bottom, x, y, r, W, H, k);
      if y + r >= H && border != BR.Bottom {
        m := BR.Motion(m.vx * k, -m.vy * k, BR.Bottom);
        SetBorder(BR.Bottom);
      }
      assert m == m4 && border == m.border;
      assert m == BR.BorderTouch(m0, x, y, r, W, H, k);
      assert State() == b0.(border := m.border);
      vx, vy := m.vx, m.vy;
      assert State() == b0.(vx := m.vx, vy := m.vy, border := m.border);
    }

    /** handleStroke(mouse). */
    method HandleStroke(mouse: Mouse)
      modifies this, mouse
      ensures (State(), mouse.State()) == Stroke(old(State()), old(mouse.State()))
      ensures pendingResets == old(pendingResets)
    {
      var g := GetDistance(x, y, r, mouse.x, mouse.y, 0.0);
      if IsTouching(g) && mouse.isBall && (mouse.ball == -1 || mouse.ball == id) {
        mouse.ball := id;
        x, y := mouse.x, mouse.y;
        vx, vy := mouse.dX, mouse.dY;
      }
    }

    /** Ball.handleCollapse(ball1, ball2), with ball1's attenuationRatio. */
    static method HandleCollapse(ball1: Ball, ball2: Ball, trig: Trig)
      requires ball1 != ball2 && Cube(ball1.r) + Cube(ball2.r) != 0.0
      modifies ball1, ball2
      ensures (ball1.State(), ball2.State()) == Collide(old(ball1.State()), old(ball2.State()), trig)
      ensures ball1.pendingResets == old(ball1.pendingResets) && ball2.pendingResets == old(ball2.pendingResets)
    {
      var isCollapse := ball2.id in ball1.collapseWith;
      var g := GetDistance(ball1.x, ball1.y, ball1.r, ball2.x, ball2.y, ball2.r);
      if IsTouching(g) && !isCollapse {
        ball1.collapseWith := BR.Added(ball1.collapseWith, ball2.id);
        ball2.collapseWith := BR.Added(ball2.collapseWith, ball1.id);
        var v := CollapseKernel(CollapseData(ball1.x, ball1.y, ball1.r, ball1.vx, ball1.vy,
                                             ball2.x, ball2.y, ball2.r, ball2.vx, ball2.vy, ball1.attenuationRatio), trig);
        ball1.vx, ball1.vy := v.vx1New, v.vy1New;
        ball2.vx, ball2.vy := v.vx2New, v.vy2New;
      }
      if g == Positive {
        ball1.collapseWith := BR.Removed(ball1.collapseWith, ball2.id);
        ball2.collapseWith := BR.Removed(ball2.collapseWith, ball1.id);
      }
    }

    /** move() */
    method Move()
      modifies this
      ensures State() == Moved(old(State()))
      ensures pendingResets == old(pendingResets)
    {
      x := x + vx;
      y := y + vy;
    }
  }

  // ---------------------------------------------------------------------
  // setBalls

  ghost function StatesOf(balls: seq<Ball>): (s: seq<BallState>)
    reads balls
    ensures |s| == |balls| && forall i :: 0 <= i < |balls| ==> s[i] == balls[i].State()
  {
    seq(|balls|, i reads balls requires 0 <= i < |balls| => balls[i].State())
  }

  /** A ball as setBalls makes it: id i, at rest, no contacts, the
      configured ratio, an integral radius in [min(minR, maxR),
      max(minR, maxR)], an integral centre in the band gC draws from, and a
      colour from generateColor (the first ball included). */
  ghost predicate PlacedBall(b: BallState, i: int, minR: int, maxR: int, W: int, H: int, k: real)
  {
    && b.id == i && b.contacts == [] && b.vx == 0.0 && b.vy == 0.0 && b.border == BR.NoBorder
    && b.attenuationRatio == k
    && b.r.Floor as real == b.r && Min(minR, maxR) <= b.r.Floor <= Max(minR, maxR)
    && Balls.InBand(b.x, b.r.Floor, W) && Balls.InBand(b.y, b.r.Floor, H)
    && IsRandomColor(b.color)
  }

  /** Every ball placed, and no two overlap (their gap is at least 0). */
  ghost predicate Placed(s: seq<BallState>, minR: int, maxR: int, W: int, H: int, k: real)
  {
    && (forall i :: 0 <= i < |s| ==> PlacedBall(s[i], i, minR, maxR, W, H, k))
    && (forall i, j :: 0 <= i < j < |s| ==> !IsOverlapping(GapOf(s[i], s[j])))
  }

  /** A placed array is consistent: every contact set is empty. */
  lemma PlacedConsistent(s: seq<BallState>, minR: int, maxR: int, W: int, H: int, k: real)
    requires Placed(s, minR, maxR, W, H, k)
    ensures Consistent(s)
  {
    forall i | 0 <= i < |s| ensures s[i].id == i && s[i].contacts == [] {
      assert PlacedBall(s[i], i, minR, maxR, W, H, k);
    }
  }

  /** Appending a placed ball that overlaps no earlier one keeps the array
      placed. */
  lemma PlacedSnoc(s: seq<BallState>, b: BallState, minR: int, maxR: int, W: int, H: int, k: real)
    requires Placed(s, minR, maxR, W, H, k) && PlacedBall(b, |s|, minR, maxR, W, H, k)
    requires forall j :: 0 <= j < |s| ==> !IsOverlapping(GapOf(s[j], b))
    ensures Placed(s + [b], minR, maxR, W, H, k)
  {
    var t := s + [b];
    forall i | 0 <= i < |t| ensures PlacedBall(t[i], i, minR, maxR, W, H, k) {
      if i < |s| {
        assert t[i] == s[i];
      }
    }
    forall i, j | 0 <= i < j < |t| ensures !IsOverlapping(GapOf(t[i], t[j])) {
      assert t[i] == s[i];
      if j < |s| {
        assert t[j] == s[j];
      }
    }
  }

  /** A new ball from a drawn radius, position and colour is placed. */
  lemma NewBallPlaced(i: int, x: int, y: int, r: int, color: string, minR: int, maxR: int, W: int, H: int, k: real)
    requires Min(minR, maxR) <= r <= Max(minR, maxR)
    requires Balls.InBand(x as real, r, W) && Balls.InBand(y as real, r, H)
    requires IsRandomColor(color)
    ensures PlacedBall(BallState(i, x as real, y as real, r as real, color, 0.0, 0.0, k, [], BR.NoBorder), i, minR, maxR, W, H, k)
  {
    assert (r as real).Floor == r;
  }

  lemma StatesOfSnoc(balls: seq<Ball>, b: Ball)
    ensures StatesOf(balls + [b]) == StatesOf(balls) + [b.State()]
  {
    assert forall i :: 0 <= i < |balls| ==> (balls + [b])[i] == balls[i];
  }

  /** The discs of the balls made so far. */
  function Discs(s: seq<BallState>): (ds: seq<BR.Disc>)
    ensures |ds| == |s| && forall i :: 0 <= i < |s| ==> ds[i] == BR.Disc(s[i].x, s[i].y, s[i].r)
  {
    seq(|s|, i requires 0 <= i < |s| => BR.Disc(s[i].x, s[i].y, s[i].r))
  }

  /** A ball centred on an attempt that is not rejected overlaps none of
      the balls s. */
  lemma ClearOfAll(s: seq<BallState>, b: BallState, r: int, W: int, H: int, draws: seq<real>, k: nat, x: int, y: int)
    requires AreDraws(draws) && k + 2 <= |draws| && !BR.Rejected(Discs(s), r, W, H, draws, k)
    requires (x, y) == BR.Attempt(r, W, H, draws, k)
    requires b.x == x as real && b.y == y as real && b.r == r as real
    ensures forall j :: 0 <= j < |s| ==> !IsOverlapping(GapOf(s[j], b))
  {
    forall j | 0 <= j < |s| ensures !IsOverlapping(GapOf(s[j], b)) {
      assert Discs(s)[j] == BR.Disc(s[j].x, s[j].y, s[j].r);
    }
  }

  /** isOverlapping(x, y, r) of setBalls: some ball already in `balls`
      overlaps the candidate. */
  predicate Overlaps(balls: seq<Ball>, x: real, y: real, r: real)
    reads balls
    ensures Overlaps(balls, x, y, r) <==> BR.OverlapsAny(Discs(StatesOf(balls)), x, y, r)
  {
    exists j :: 0 <= j < |balls| && IsOverlapping(GetDistance(balls[j].x, balls[j].y, balls[j].r, x, y, r))
  }

  /** The do-while loop of setBalls: draw coordinates in the band for
      radius `r` until no ball of `balls` overlaps them. The result is the
      first clear attempt with the next unused draw; None when the draws
      run out, in place of a loop that never ends. */
  method PickPlace(balls: seq<Ball>, r: int, W: int, H: int, draws: seq<real>, from: nat) returns (res: Option<(int, int, nat)>)
    requires AreDraws(draws)
    ensures res == BR.FirstClear(Discs(StatesOf(balls)), r, W, H, draws, from)
    ensures res.Some? ==> var (x, y, next) := res.value;
      && from + 2 <= next <= |draws|
      && Balls.InBand(x as real, r, W) && Balls.InBand(y as real, r, H)
      && !Overlaps(balls, x as real, y as real, r as real)
  {
    ghost var ds := Discs(StatesOf(balls));
    var next := from;
    var xI, yI := Round(W as real / 2.0), Round(H as real / 2.0);
    var clear := false;
    while !clear
      invariant from <= next
      invariant !clear ==> BR.FirstClear(ds, r, W, H, draws, next) == BR.FirstClear(ds, r, W, H, draws, from)
      invariant clear ==> BR.FirstClear(ds, r, W, H, draws, from) == Some((xI, yI, next))
      invariant clear ==> from + 2 <= next <= |draws|
      invariant clear ==> !Overlaps(balls, xI as real, yI as real, r as real)
      invariant clear ==> Balls.InBand(xI as real, r, W) && Balls.InBand(yI as real, r, H)
      decreases |draws| - next, if clear then 0 else 1
    {
      if next + 2 > |draws| {
        return None;
      }
      var p := GenerateCoordinates(r + 5, W - r - 5, r + 5, H - r - 5, draws[next], draws[next + 1]);
      assert p == BR.Attempt(r, W, H, draws, next);
      next := next + 2;
      xI, yI := p.0, p.1;
      clear := !Overlaps(balls, xI as real, yI as real, r as real);
    }
    return Some((xI, yI, next));
  }

  /** One pass of setBalls' for loop on values: ball i gets a radius from
      draw `from`, the first clear centre after it and then the first
      colour that is not reserved, with ratio k; the next unused draw
      comes with it. None when the draws run out. */
  function NextBall(s: seq<BallState>, i: int, minR: int, maxR: int, W: int, H: int, k: real, draws: seq<real>, from: nat)
    : (res: Option<(BallState, nat)>)
    requires AreDraws(draws)
    ensures res.Some? ==> from < res.value.1 <= |draws| && res.value.0.id == i
  {
    if from >= |draws| then None
    else
      var r := GenerateRadius(minR, maxR, draws[from]);
      var place := BR.FirstClear(Discs(s), r, W, H, draws, from + 1);
      if place.None? then None
      else
        var color := PickColor(draws, place.value.2);
        if color.None? then None
        else Some((BallState(i, place.value.0 as real, place.value.1 as real, r as real, color.value.0, 0.0, 0.0, k, [], BR.NoBorder),
                   color.value.1))
  }

  /** A pass fails exactly when the radius draw is missing, every centre
      after it lands on a ball, or every colour after the centre is black
      or white. */
  lemma NextBallNone(s: seq<BallState>, i: int, minR: int, maxR: int, W: int, H: int, k: real, draws: seq<real>, from: nat)
    requires AreDraws(draws)
    ensures NextBall(s, i, minR, maxR, W, H, k, draws, from).None? <==>
      || from >= |draws|
      || BR.AllRejected(Discs(s), GenerateRadius(minR, maxR, draws[from]), W, H, draws, from + 1)
      || (&& BR.FirstClear(Discs(s), GenerateRadius(minR, maxR, draws[from]), W, H, draws, from + 1).Some?
          && AllReserved(draws, BR.FirstClear(Discs(s), GenerateRadius(minR, maxR, draws[from]), W, H, draws, from + 1).value.2))
  {
    if from < |draws| {
      var r := GenerateRadius(minR, maxR, draws[from]);
      BR.FirstClearNone(Discs(s), r, W, H, draws, from + 1);
      var place := BR.FirstClear(Discs(s), r, W, H, draws, from + 1);
      if place.Some? {
        PickColorNone(draws, place.value.2);
      }
    }
  }

  /** The ball a pass adds is placed as ball i. */
  lemma NextBallFits(s: seq<BallState>, i: int, minR: int, maxR: int, W: int, H: int, k: real, draws: seq<real>, from: nat,
                     b: BallState, next: nat)
    requires AreDraws(draws)
    requires NextBall(s, i, minR, maxR, W, H, k, draws, from) == Some((b, next))
    ensures PlacedBall(b, i, minR, maxR, W, H, k)
  {
    var r := GenerateRadius(minR, maxR, draws[from]);
    var (x, y, n) := BR.FirstClear(Discs(s), r, W, H, draws, from + 1).value;
    BR.FirstClearFirst(Discs(s), r, W, H, draws, from + 1, x, y, n);
    var color := PickColor(draws, n).value.0;
    assert b == BallState(i, x as real, y as real, r as real, color, 0.0, 0.0, k, [], BR.NoBorder);
    NewBallPlaced(i, x, y, r, color, minR, maxR, W, H, k);
  }

  /** A pass that succeeds puts its ball on the first clear attempt after
      the radius draw. */
  lemma NextBallParts(s: seq<BallState>, i: int, minR: int, maxR: int, W: int, H: int, k: real, draws: seq<real>, from: nat,
                      b: BallState, next: nat)
    requires AreDraws(draws)
    requires NextBall(s, i, minR, maxR, W, H, k, draws, from) == Some((b, next))
    ensures from < |draws| && exists t: nat, x: int, y: int ::
      && t + 2 <= |draws| && !BR.Rejected(Discs(s), b.r.Floor, W, H, draws, t)
      && (x, y) == BR.Attempt(b.r.Floor, W, H, draws, t)
      && b.x == x as real && b.y == y as real && b.r == b.r.Floor as real
  {
    var r := GenerateRadius(minR, maxR, draws[from]);
    var (x, y, n) := BR.FirstClear(Discs(s), r, W, H, draws, from + 1).value;
    BR.FirstClearFirst(Discs(s), r, W, H, draws, from + 1, x, y, n);
    assert (r as real).Floor == r;
    assert b.x == x as real && b.y == y as real && b.r == r as real;
  }

  /** The ball a pass adds overlaps none of the balls before it. */
  lemma NextBallClear(s: seq<BallState>, i: int, minR: int, maxR: int, W: int, H: int, k: real, draws: seq<real>, from: nat,
                      b: BallState, next: nat)
    requires AreDraws(draws)
    requires NextBall(s, i, minR, maxR, W, H, k, draws, from) == Some((b, next))
    ensures forall j :: 0 <= j < |s| ==> !IsOverlapping(GapOf(s[j], b))
  {
    NextBallParts(s, i, minR, maxR, W, H, k, draws, from, b, next);
    var t: nat, x: int, y: int :| && t + 2 <= |draws| && !BR.Rejected(Discs(s), b.r.Floor, W, H, draws, t)
      && (x, y) == BR.Attempt(b.r.Floor, W, H, draws, t)
      && b.x == x as real && b.y == y as real && b.r == b.r.Floor as real;
    ClearOfAll(s, b, b.r.Floor, W, H, draws, t, x, y);
  }

  /** The rest of setBalls' for loop from the array s: one pass per
      missing ball until there are qty; false, with the balls made so far,
      when a pass runs out of draws. The last component is the next unused
      draw. */
  function Fill(s: seq<BallState>, qty: int, minR: int, maxR: int, W: int, H: int, k: real, draws: seq<real>, from: nat)
    : (res: (seq<BallState>, bool, nat))
    requires AreDraws(draws)
    ensures |s| <= |res.0| <= Max(qty, |s|)
    ensures res.1 <==> |res.0| >= qty
    decreases qty - |s|
  {
    if |s| >= qty then (s, true, from)
    else
      var nb := NextBall(s, |s|, minR, maxR, W, H, k, draws, from);
      if nb.None? then (s, false, from)
      else
        Fill(s + [nb.value.0], qty, minR, maxR, W, H, k, draws, nb.value.1)
  }

  lemma {:induction false} FillPlaced(s: seq<BallState>, qty: int, minR: int, maxR: int, W: int, H: int, k: real,
                                      draws: seq<real>, from: nat)
    requires AreDraws(draws) && Placed(s, minR, maxR, W, H, k)
    ensures Placed(Fill(s, qty, minR, maxR, W, H, k, draws, from).0, minR, maxR, W, H, k)
    decreases qty - |s|
  {
    if |s| < qty {
      var nb := NextBall(s, |s|, minR, maxR, W, H, k, draws, from);
      if nb.Some? {
        NextBallFits(s, |s|, minR, maxR, W, H, k, draws, from, nb.value.0, nb.value.1);
        NextBallClear(s, |s|, minR, maxR, W, H, k, draws, from, nb.value.0, nb.value.1);
        PlacedSnoc(s, nb.value.0, minR, maxR, W, H, k);
        FillPlaced(s + [nb.value.0], qty, minR, maxR, W, H, k, draws, nb.value.1);
      }
    }
  }

  /** The loop only appends: the balls it starts from stay in front. */
  lemma {:induction false} FillExtends(s: seq<BallState>, qty: int, minR: int, maxR: int, W: int, H: int, k: real,
                                       draws: seq<real>, from: nat)
    requires AreDraws(draws)
    ensures Fill(s, qty, minR, maxR, W, H, k, draws, from).0[..|s|] == s
    decreases qty - |s|
  {
    if |s| < qty {
      var nb := NextBall(s, |s|, minR, maxR, W, H, k, draws, from);
      if nb.Some? {
        var t := s + [nb.value.0];
        FillExtends(t, qty, minR, maxR, W, H, k, draws, nb.value.1);
        assert Fill(t, qty, minR, maxR, W, H, k, draws, nb.value.1).0[..|s|] == Fill(t, qty, minR, maxR, W, H, k, draws, nb.value.1).0[..|t|][..|s|];
      }
    }
  }

  /** The loop stops short only at a pass that fails. */
  lemma {:induction false} FillFails(s: seq<BallState>, qty: int, minR: int, maxR: int, W: int, H: int, k: real,
                                     draws: seq<real>, from: nat)
    requires AreDraws(draws)
    ensures var res := Fill(s, qty, minR, maxR, W, H, k, draws, from);
      !res.1 ==> NextBall(res.0, |res.0|, minR, maxR, W, H, k, draws, res.2).None?
    decreases qty - |s|
  {
    if |s| < qty {
      var nb := NextBall(s, |s|, minR, maxR, W, H, k, draws, from);
      if nb.Some? {
        FillFails(s + [nb.value.0], qty, minR, maxR, W, H, k, draws, nb.value.1);
      }
    }
  }

  /** The first ball of setBalls in colour c: radius and centre from the
      first three draws. */
  function FirstBallIn(minR: int, maxR: int, H: int, W: int, k: real, draws: seq<real>, c: string): BallState
    requires AreDraws(draws) && 3 <= |draws|
  {
    var r0 := GenerateRadius(minR, maxR, draws[0]);
    var p0 := GenerateCoordinates(r0 + 5, W - r0 - 5, r0 + 5, H - r0 - 5, draws[1], draws[2]);
    BallState(0, p0.0 as real, p0.1 as real, r0 as real, c, 0.0, 0.0, k, [], BR.NoBorder)
  }

  /** FirstBallIn from the drawn radius and centre. */
  lemma FirstBallInIs(minR: int, maxR: int, H: int, W: int, k: real, draws: seq<real>, c: string, r0: int, p0: (int, int))
    requires AreDraws(draws) && 3 <= |draws|
    requires r0 == GenerateRadius(minR, maxR, draws[0])
    requires p0 == GenerateCoordinates(r0 + 5, W - r0 - 5, r0 + 5, H - r0 - 5, draws[1], draws[2])
    ensures FirstBallIn(minR, maxR, H, W, k, draws, c) == BallState(0, p0.0 as real, p0.1 as real, r0 as real, c, 0.0, 0.0, k, [], BR.NoBorder)
  {
  }

  /** The first ball of setBalls with the next unused draw: its colour is
      the first one from draw 3 on that is not reserved; None when there is
      none. */
  function FirstBall(minR: int, maxR: int, H: int, W: int, k: real, draws: seq<real>): (res: Option<(BallState, nat)>)
    requires AreDraws(draws) && 3 <= |draws|
    ensures res.Some? ==> 3 < res.value.1 <= |draws|
  {
    match PickColor(draws, 3)
    case None => None
    case Some((c, n)) => Some((FirstBallIn(minR, maxR, H, W, k, draws, c), n))
  }

  /** The first ball is missing exactly when every colour is reserved. */
  lemma FirstBallNone(minR: int, maxR: int, H: int, W: int, k: real, draws: seq<real>)
    requires AreDraws(draws) && 3 <= |draws|
    ensures FirstBall(minR, maxR, H, W, k, draws).None? <==> AllReserved(draws, 3)
  {
    PickColorNone(draws, 3);
  }

  /** The first ball is placed as ball 0; nothing can overlap it yet. */
  lemma FirstBallPlaced(minR: int, maxR: int, H: int, W: int, k: real, draws: seq<real>)
    requires AreDraws(draws) && 3 <= |draws| && FirstBall(minR, maxR, H, W, k, draws).Some?
    ensures Placed([FirstBall(minR, maxR, H, W, k, draws).value.0], minR, maxR, W, H, k)
  {
    var c := PickColor(draws, 3).value.0;
    assert FirstBall(minR, maxR, H, W, k, draws).value.0 == FirstBallIn(minR, maxR, H, W, k, draws, c);
    var r0 := GenerateRadius(minR, maxR, draws[0]);
    var p0 := GenerateCoordinates(r0 + 5, W - r0 - 5, r0 + 5, H - r0 - 5, draws[1], draws[2]);
    NewBallPlaced(0, p0.0, p0.1, r0, c, minR, maxR, W, H, k);
  }

  /** The array setBalls builds, whether it is complete, and the next
      unused draw: the first ball, then the for loop. */
  function SetBallsResult(qty: int, minR: int, maxR: int, H: int, W: int, k: real, draws: seq<real>)
    : (res: (seq<BallState>, bool, nat))
    requires AreDraws(draws)
    ensures res.1 <==> |res.0| == Max(qty, 1)
    ensures |res.0| <= Max(qty, 1)
  {
    if |draws| < 3 then ([], false, 0)
    else
      var first := FirstBall(minR, maxR, H, W, k, draws);
      if first.None? then ([], false, 3)
      else if qty == 1 then ([first.value.0], true, first.value.1)
      else Fill([first.value.0], qty, minR, maxR, W, H, k, draws, first.value.1)
  }

  /** Whatever setBalls returns is placed. */
  lemma SetBallsPlaced(qty: int, minR: int, maxR: int, H: int, W: int, k: real, draws: seq<real>)
    requires AreDraws(draws)
    ensures Placed(SetBallsResult(qty, minR, maxR, H, W, k, draws).0, minR, maxR, W, H, k)
  {
    if |draws| >= 3 {
      var first := FirstBall(minR, maxR, H, W, k, draws);
      if first.Some? {
        FirstBallPlaced(minR, maxR, H, W, k, draws);
        if qty != 1 {
          FillPlaced([first.value.0], qty, minR, maxR, W, H, k, draws, first.value.1);
        }
      }
    }
  }

  /** setBalls comes up short only when the first ball's draws are
      missing, every colour after them is reserved, or a pass of the for
      loop fails. */
  lemma SetBallsFails(qty: int, minR: int, maxR: int, H: int, W: int, k: real, draws: seq<real>)
    requires AreDraws(draws)
    ensures var res := SetBallsResult(qty, minR, maxR, H, W, k, draws);
      !res.1 ==> || |draws| < 3 || AllReserved(draws, 3)
                 || NextBall(res.0, |res.0|, minR, maxR, W, H, k, draws, res.2).None?
  {
    if |draws| >= 3 {
      var first := FirstBall(minR, maxR, H, W, k, draws);
      FirstBallNone(minR, maxR, H, W, k, draws);
      if first.Some? && qty != 1 {
        FillFails([first.value.0], qty, minR, maxR, W, H, k, draws, first.value.1);
      }
    }
  }

  /** One pass of setBalls' for loop: a radius, a clear position and a
      colour, then the new ball, exactly as NextBall says; None when the
      draws run out. */
  method AddBall(balls: seq<Ball>, i: int, minR: int, maxR: int, W: int, H: int, k: real, draws: seq<real>, from: nat)
    returns (res: Option<(Ball, nat)>)
    requires AreDraws(draws)
    requires i == |balls| && Placed(StatesOf(balls), minR, maxR, W, H, k)
    ensures res.None? <==> NextBall(StatesOf(balls), i, minR, maxR, W, H, k, draws, from).None?
    ensures res.Some? ==>
      && res.value.0.State() == NextBall(StatesOf(balls), i, minR, maxR, W, H, k, draws, from).value.0
      && res.value.1 == NextBall(StatesOf(balls), i, minR, maxR, W, H, k, draws, from).value.1
      && from < res.value.1 <= |draws| && fresh(res.value.0)
    ensures res.Some? ==> Placed(StatesOf(balls + [res.value.0]), minR, maxR, W, H, k)
  {
    if from >= |draws| {
      return None;
    }
    var r := GenerateRadius(minR, maxR, draws[from]);
    var place := PickPlace(balls, r, W, H, draws, from + 1);
    if place.None? {
      return None;
    }
    var (xI, yI, after) := place.value;
    var c := GenerateColor(draws, after);
    if c.None? {
      return None;
    }
    ghost var s := StatesOf(balls);
    var nb := new Ball(i, xI as real, yI as real, r as real, c.value.0, k);
    assert StatesOf(balls) == s;
    ghost var b := nb.State();
    assert NextBall(s, i, minR, maxR, W, H, k, draws, from) == Some((b, c.value.1));
    NextBallFits(s, i, minR, maxR, W, H, k, draws, from, b, c.value.1);
    NextBallClear(s, i, minR, maxR, W, H, k, draws, from, b, c.value.1);
    StatesOfSnoc(balls, nb);
    PlacedSnoc(s, b, minR, maxR, W, H, k);
    return Some((nb, c.value.1));
  }

  /** The for loop of setBalls, from ball |balls| on, with `from` the
      first unused draw: the balls it appends are the ones Fill lists. */
  method AddBalls(balls0: seq<Ball>, qty: int, minR: int, maxR: int, W: int, H: int, k: real, draws: seq<real>, from: nat)
    returns (balls: seq<Ball>, ok: bool)
    requires AreDraws(draws) && Placed(StatesOf(balls0), minR, maxR, W, H, k)
    ensures Placed(StatesOf(balls), minR, maxR, W, H, k)
    ensures StatesOf(balls) == Fill(StatesOf(balls0), qty, minR, maxR, W, H, k, draws, from).0
    ensures ok == Fill(StatesOf(balls0), qty, minR, maxR, W, H, k, draws, from).1
    ensures |balls0| <= |balls| && balls[..|balls0|] == balls0
    ensures forall j :: |balls0| <= j < |balls| ==> fresh(balls[j])
  {
    balls := balls0;
    var next := from;
    var i := |balls|;
    while i < qty
      invariant |balls0| <= i == |balls|
      invariant Placed(StatesOf(balls), minR, maxR, W, H, k)
      invariant Fill(StatesOf(balls), qty, minR, maxR, W, H, k, draws, next)
             == Fill(StatesOf(balls0), qty, minR, maxR, W, H, k, draws, from)
      invariant balls[..|balls0|] == balls0
      invariant forall j :: |balls0| <= j < |balls| ==> fresh(balls[j])
      decreases qty - i
    {
      var added := AddBall(balls, i, minR, maxR, W, H, k, draws, next);
      if added.None? {
        return balls, false;
      }
      var (nb, after) := added.value;
      StatesOfSnoc(balls, nb);
      balls, next := balls + [nb], after;
      i := i + 1;
    }
    return balls, true;
  }

  /** setBalls(config). Math.random is the sequence `draws`, consumed in
      source order (a radius, two coordinates per try, six hex digits per
      colour attempt); `ok` is false when the draws run out first, with
      the balls made so far. */
  method SetBalls(qty: int, minR: int, maxR: int, H: int, W: int, attenuationRatio: real, draws: seq<real>)
    returns (balls: seq<Ball>, ok: bool)
    requires AreDraws(draws)
    ensures StatesOf(balls) == SetBallsResult(qty, minR, maxR, H, W, attenuationRatio, draws).0
    ensures ok == SetBallsResult(qty, minR, maxR, H, W, attenuationRatio, draws).1
    ensures Placed(StatesOf(balls), minR, maxR, W, H, attenuationRatio)
    ensures Consistent(StatesOf(balls))
    ensures ok <==> |balls| == Max(qty, 1)
    ensures fresh(balls)
  {
    if |draws| < 3 {
      return [], false;
    }
    var r0 := GenerateRadius(minR, maxR, draws[0]);
    var p0 := GenerateCoordinates(r0 + 5, W - r0 - 5, r0 + 5, H - r0 - 5, draws[1], draws[2]);
    var c0 := GenerateColor(draws, 3);
    if c0.None? {
      return [], false;
    }
    var b0 := new Ball(0, p0.0 as real, p0.1 as real, r0 as real, c0.value.0, attenuationRatio);
    balls := [b0];
    FirstBallInIs(minR, maxR, H, W, attenuationRatio, draws, c0.value.0, r0, p0);
    assert StatesOf(balls) == [b0.State()];
    FirstBallPlaced(minR, maxR, H, W, attenuationRatio, draws);
    if qty == 1 {
      PlacedConsistent(StatesOf(balls), minR, maxR, W, H, attenuationRatio);
      return balls, true;
    }
    balls, ok := AddBalls(balls, qty, minR, maxR, W, H, attenuationRatio, draws, c0.value.1);
    assert balls[0] == b0;
    PlacedConsistent(StatesOf(balls), minR, maxR, W, H, attenuationRatio);
  }
}
