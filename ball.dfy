/** The classes of src/objects/ball.ts. The static members of Ball
    (balls, W, H, attenuationRatio, set) live in a Registry object that
    every method receives; each instance method is proved to change its
    ball (and, for handleStroke, the cursor) exactly as the matching
    function of module BallRules says, reading the other balls through the
    registry's snapshot. The 300 ms timer of setBorder is an explicit
    expiry method guarded by a ghost count of pending timers. */
module Balls {
  import opened Utils
  import opened Cursor
  import opened BallRules

  class Ball {
    const id: int
    const r: real
    var x: real
    var y: real
    var color: string
    var vx: real
    var vy: real
    /** the Set collapseWith, in insertion order */
    var collapseWith: seq<int>
    var border: Border

    /** border reset timers scheduled and not fired yet */
    ghost var pendingResets: nat

    function State(): BallState
      reads this
    {
      BallState(id, x, y, r, color, vx, vy, collapseWith, border)
    }

    constructor (id: int, x0: real, y0: real, r: real, color: string)
      ensures State() == BallState(id, x0, y0, r, color, 0.0, 0.0, [], NoBorder)
      ensures pendingResets == 0
    {
      this.id := id;
      this.r := r;
      x, y := x0, y0;
      this.color := color;
      vx, vy := 0.0, 0.0;
      collapseWith := [];
      border := NoBorder;
      pendingResets := 0;
    }

    /** handleCollapse(ball1, ball2), with Ball.attenuationRatio. */
    static method HandleCollapse(reg: Registry, ball1: Ball, ball2: Ball, trig: Trig)
      requires reg.Valid() && reg.Holds(ball1) && reg.Holds(ball2) && ball1 != ball2
      modifies ball1, ball2
      ensures Cube(ball1.r) + Cube(ball2.r) != 0.0
      ensures (ball1.State(), ball2.State()) == Collide(old(ball1.State()), old(ball2.State()), reg.attenuationRatio, trig)
      ensures ball1.pendingResets == old(ball1.pendingResets) && ball2.pendingResets == old(ball2.pendingResets)
      ensures reg.States() == old(reg.States())[ball1.id := ball1.State()][ball2.id := ball2.State()]
      ensures reg.Valid()
    {
      ghost var s := reg.States();
      reg.IdsAreIndices();
      DenominatorPositive(ball1.r, ball2.r);
      var isCollapse := ball2.id in ball1.collapseWith;
      var g := GetDistance(ball1.x, ball1.y, ball1.r, ball2.x, ball2.y, ball2.r);
      var c1, c2 := ball1.collapseWith, ball2.collapseWith;
      var vx1, vy1, vx2, vy2 := ball1.vx, ball1.vy, ball2.vx, ball2.vy;
      if IsTouching(g) && !isCollapse {
        c1 := Added(c1, ball2.id);
        c2 := Added(c2, ball1.id);
        var v := GetSpeeds(CollapseData(ball1.x, ball1.y, ball1.r, ball1.vx, ball1.vy,
                                        ball2.x, ball2.y, ball2.r, ball2.vx, ball2.vy, reg.attenuationRatio), trig);
        vx1, vy1, vx2, vy2 := v.vx1New, v.vy1New, v.vx2New, v.vy2New;
      }
      if g == Positive {
        c1 := Removed(c1, ball2.id);
        c2 := Removed(c2, ball1.id);
      }
      StorePair(reg, ball1, ball2, c1, vx1, vy1, c2, vx2, vy2);
      CollidePreservesWellFormed(s, ball1.id, ball2.id, reg.attenuationRatio, trig);
    }

    /** Writes the contact sets and velocities of two distinct balls; the
        other balls are untouched. */
    static method StorePair(reg: Registry, ball1: Ball, ball2: Ball,
                            c1: seq<int>, vx1: real, vy1: real, c2: seq<int>, vx2: real, vy2: real)
      requires reg.Valid() && reg.Holds(ball1) && reg.Holds(ball2) && ball1 != ball2
      modifies ball1, ball2
      ensures ball1.State() == old(ball1.State()).(contacts := c1, vx := vx1, vy := vy1)
      ensures ball2.State() == old(ball2.State()).(contacts := c2, vx := vx2, vy := vy2)
      ensures ball1.pendingResets == old(ball1.pendingResets) && ball2.pendingResets == old(ball2.pendingResets)
      ensures reg.States() == old(reg.States())[ball1.id := ball1.State()][ball2.id := ball2.State()]
    {
      ghost var s := reg.States();
      reg.IdsAreIndices();
      ball1.collapseWith, ball1.vx, ball1.vy := c1, vx1, vy1;
      ball2.collapseWith, ball2.vx, ball2.vy := c2, vx2, vy2;
      assert reg.States() == s[ball1.id := ball1.State()][ball2.id := ball2.State()];
    }

    /** The forEach over collapseWith in setX and setY: each contact peer
        that still touches this ball (by its current position) and that the
        candidate coordinate approaches along the axis mirrors the step. */
    method ReflectAlong(reg: Registry, a: Axis, start: real) returns (v: real)
      requires reg.Holds(this) && forall c :: c in collapseWith ==> 0 <= c < |reg.balls|
      ensures v == Reflect(a, start, DiscOf(State()), Peers(reg.States(), collapseWith))
    {
      ghost var s := reg.States();
      ghost var self := DiscOf(State());
      v := start;
      var k := 0;
      while k < |collapseWith|
        invariant 0 <= k <= |collapseWith|
        invariant v == Reflect(a, start, self, Peers(s, collapseWith[..k]))
      {
        var peer := collapseWith[k];
        assert peer in collapseWith;
        PeersSnoc(s, collapseWith, k);
        ReflectSnoc(a, start, self, Peers(s, collapseWith[..k]), DiscOf(s[peer]));
        v := MirrorPeer(reg, a, v, reg.balls[peer]);
        k := k + 1;
      }
      assert collapseWith[..k] == collapseWith;
    }

    /** One pass of that forEach, against the peer ball b2. */
    method MirrorPeer(reg: Registry, a: Axis, v: real, b2: Ball) returns (w: real)
      ensures w == Mirror(a, v, DiscOf(State()), DiscOf(b2.State()))
    {
      var own := if a == XAxis then x else y;
      var other := if a == XAxis then b2.x else b2.y;
      w := v;
      if IsTouching(GetDistance(x, y, r, b2.x, b2.y, b2.r)) && Abs(v - other) < Abs(own - other) {
        w := own - (v - own);
      }
    }

    /** Writes the position and velocity of this ball; the other balls and
        the invariant are untouched. */
    method Store(reg: Registry, nx: real, ny: real, nvx: real, nvy: real)
      requires reg.Valid() && reg.Holds(this)
      modifies this
      ensures State() == old(State()).(x := nx, y := ny, vx := nvx, vy := nvy)
      ensures pendingResets == old(pendingResets)
      ensures reg.States() == old(reg.States())[id := State()]
      ensures reg.Valid()
    {
      ghost var s := reg.States();
      reg.IdsAreIndices();
      x, y, vx, vy := nx, ny, nvx, nvy;
      assert reg.States() == s[id := State()];
      WellFormedFrame(s, reg.States());
    }

    /** setX(cand): clamp to [r, W - r], then reflect the step against
        every contact peer still touching. */
    method SetX(reg: Registry, cand: real)
      requires reg.Valid() && reg.Holds(this)
      modifies this
      ensures State() == SetXState(old(State()), cand, old(reg.States()), reg.W)
      ensures pendingResets == old(pendingResets)
      ensures reg.States() == old(reg.States())[id := State()]
      ensures reg.Valid()
    {
      ghost var s := reg.States();
      reg.IdsAreIndices();
      var newX := if cand < r then r else if cand > reg.W - r then reg.W - r else cand;
      reg.ContactsInRange(this);
      newX := ReflectAlong(reg, XAxis, newX);
      Store(reg, newX, y, vx, vy);
    }

    /** setY(cand): clamp to [r, H - r], then reflect as in setX. */
    method SetY(reg: Registry, cand: real)
      requires reg.Valid() && reg.Holds(this)
      modifies this
      ensures State() == SetYState(old(State()), cand, old(reg.States()), reg.H)
      ensures pendingResets == old(pendingResets)
      ensures reg.States() == old(reg.States())[id := State()]
      ensures reg.Valid()
    {
      ghost var s := reg.States();
      reg.IdsAreIndices();
      var newY := if cand < r then r else if cand > reg.H - r then reg.H - r else cand;
      reg.ContactsInRange(this);
      newY := ReflectAlong(reg, YAxis, newY);
      Store(reg, x, newY, vx, vy);
    }

    /** setBorder(brd): record the wall and schedule its reset. */
    method SetBorder(brd: Border)
      modifies this
      ensures State() == old(State()).(border := brd)
      ensures pendingResets == old(pendingResets) + 1
    {
      border := brd;
      pendingResets := pendingResets + 1;
    }

    /** One scheduled border reset fires. */
    method ExpireBorder()
      requires pendingResets > 0
      modifies this
      ensures State() == old(State()).(border := NoBorder)
      ensures pendingResets == old(pendingResets) - 1
    {
      border := NoBorder;
      pendingResets := pendingResets - 1;
    }

    /** handleBorderTouch(), with Ball.W, Ball.H and Ball.attenuationRatio.
        Each branch's velocity update is carried in `m` and stored once at
        the end; only the next branches read the velocity in between, and
        they read it from `m`. The border goes through setBorder as in the
        source, so each branch sees the border written by the ones before. */
    method HandleBorderTouch(reg: Registry)
      modifies this
      ensures State() == BorderTouchBall(old(State()), reg.W, reg.H, reg.attenuationRatio)
      ensures pendingResets >= old(pendingResets)
      ensures border != old(border) ==> pendingResets > old(pendingResets)
    {
      var k := reg.attenuationRatio;
      ghost var W, H := reg.W, reg.H;
      ghost var m0 := MotionOf(State());
      var m := MotionOf(State());
      BounceRule(m, Left, x, y, r, W, H, k);
      ghost var m1 := Bounce(m, Left, x, y, r, W, H, k);
      if x - r <= 0.0 && border != Left {
        m := Motion(-m.vx * k, m.vy * k, Left);
        SetBorder(Left);
      }
      assert m == m1 && border == m.border;
      BounceRule(m, Right, x, y, r, W, H, k);
      ghost var m2 := Bounce(m, Right, x, y, r, W, H, k);
      if x + r >= reg.W && border != Right {
        m := Motion(-m.vx * k, m.vy * k, Right);
        SetBorder(Right);
      }
      assert m == m2 && border == m.border;
      BounceRule(m, Top, x, y, r, W, H, k);
      ghost var m3 := Bounce(m, Top, x, y, r, W, H, k);
      if y - r <= 0.0 && border != Top {
        m := Motion(m.vx * k, -m.vy * k, Top);
        SetBorder(Top);
      }
      assert m == m3 && border == m.border;
      BounceRule(m, Bottom, x, y, r, W, H, k);
      ghost var m4 := Bounce(m, Bottom, x, y, r, W, H, k);
      if y + r >= reg.H && border != Bottom {
        m := Motion(m.vx * k, -m.vy * k, Bottom);
        SetBorder(Bottom);
      }
      assert m == m4 && border == m.border;
      assert m == BorderTouch(m0, x, y, r, W, H, k);
      vx, vy := m.vx, m.vy;
    }

    /** handleStroke(mouse): a gripped ball is put under the cursor and
        takes its velocity; the cursor records the grip. */
    method HandleStroke(reg: Registry, mouse: Mouse)
      requires reg.Valid() && reg.Holds(this)
      modifies this, mouse
      ensures (State(), mouse.State()) == Stroke(old(State()), old(mouse.State()), old(reg.States()), reg.W, reg.H)
      ensures pendingResets == old(pendingResets)
      ensures mouse.pendingVx == old(mouse.pendingVx) && mouse.pendingVy == old(mouse.pendingVy)
      ensures reg.States() == old(reg.States())[id := State()]
      ensures reg.Valid()
    {
      var g := GetDistance(x, y, r, mouse.x, mouse.y, 1.0);
      if IsOverlapping(g) && mouse.btnPressed && (mouse.ball == -1 || mouse.ball == id) && |collapseWith| == 0 {
        Grab(reg, mouse);
      } else {
        assert !Grips(State(), mouse.State());
        assert reg.States() == old(reg.States())[id := State()];
      }
    }

    /** The body of handleStroke under the grip condition. */
    method Grab(reg: Registry, mouse: Mouse)
      requires reg.Valid() && reg.Holds(this) && Grips(State(), mouse.State())
      modifies this, mouse
      ensures (State(), mouse.State()) == Stroke(old(State()), old(mouse.State()), old(reg.States()), reg.W, reg.H)
      ensures pendingResets == old(pendingResets)
      ensures mouse.pendingVx == old(mouse.pendingVx) && mouse.pendingVy == old(mouse.pendingVy)
      ensures reg.States() == old(reg.States())[id := State()]
      ensures reg.Valid()
    {
      ghost var s := reg.States();
      ghost var b := State();
      ghost var m := mouse.State();
      mouse.ball := id;
      assert reg.States() == s;
      SetX(reg, mouse.x);
      ghost var b1 := State();
      assert b1 == SetXState(b, m.x, s, reg.W);
      PeersFrame(s, b.contacts, id, b1);
      SetY(reg, mouse.y);
      ghost var b2 := State();
      assert b2 == SetYState(b1, m.y, s, reg.H);
      Store(reg, x, y, mouse.vx, mouse.vy);
      assert State() == b2.(vx := m.vx, vy := m.vy);
      assert mouse.State() == m.(ball := b.id);
      assert s[id := b1][id := b2][id := State()] == s[id := State()];
    }

    /** move(): setX(x + vx), then setY(y + vy). */
    method Move(reg: Registry)
      requires reg.Valid() && reg.Holds(this)
      modifies this
      ensures State() == BallRules.Move(old(State()), old(reg.States()), reg.W, reg.H)
      ensures pendingResets == old(pendingResets)
      ensures reg.States() == old(reg.States())[id := State()]
      ensures reg.Valid()
    {
      ghost var s := reg.States();
      ghost var b := State();
      SetX(reg, x + vx);
      ghost var b1 := State();
      PeersFrame(s, b.contacts, id, b1);
      SetY(reg, y + vy);
    }
  }

  /** Sizes of a set-up registry: ids are indices, balls are at rest with
      no contacts, integral radii in [min(minR, maxR), max(minR, maxR)],
      integral centres within the band set.gC draws from, the cue ball is
      white, every other colour is a random one, and no ball overlaps an
      earlier one. */
  ghost predicate PlacedBall(b: BallState, i: int, minR: int, maxR: int, W: int, H: int)
  {
    && b.id == i && b.contacts == [] && b.vx == 0.0 && b.vy == 0.0 && b.border == NoBorder
    && b.r.Floor as real == b.r && Min(minR, maxR) <= b.r.Floor <= Max(minR, maxR)
    && InBand(b.x, b.r.Floor, W) && InBand(b.y, b.r.Floor, H)
    && (if i == 0 then b.color == "#ffffff" else IsRandomColor(b.color))
  }

  /** An integral coordinate in the band [r + 5, size - r - 5] (either
      order) that generateCoordinates draws from. */
  ghost predicate InBand(c: real, r: int, size: int)
  {
    c.Floor as real == c && Min(r + 5, size - r - 5) <= c.Floor <= Max(r + 5, size - r - 5)
  }

  ghost predicate Placed(s: seq<BallState>, minR: int, maxR: int, W: int, H: int)
  {
    && (forall i :: 0 <= i < |s| ==> PlacedBall(s[i], i, minR, maxR, W, H))
    && (forall i, j :: 0 <= i < j < |s| ==> !IsOverlapping(GapOf(s[i], s[j])))
  }

  /** A placed registry with positive radii satisfies the invariant. */
  lemma PlacedWellFormed(s: seq<BallState>, minR: int, maxR: int, W: int, H: int)
    requires 0 < minR && 0 < maxR && Placed(s, minR, maxR, W, H)
    ensures WellFormed(s)
  {
    forall i | 0 <= i < |s| ensures s[i].r > 0.0 {
      assert PlacedBall(s[i], i, minR, maxR, W, H);
    }
  }

  /** A ball made by set from a drawn radius and a drawn position. */
  lemma NewBallPlaced(i: int, x: int, y: int, r: int, color: string, minR: int, maxR: int, W: int, H: int)
    requires Min(minR, maxR) <= r <= Max(minR, maxR)
    requires InBand(x as real, r, W) && InBand(y as real, r, H)
    requires if i == 0 then color == "#ffffff" else IsRandomColor(color)
    ensures PlacedBall(BallState(i, x as real, y as real, r as real, color, 0.0, 0.0, [], NoBorder), i, minR, maxR, W, H)
  {
    assert (r as real).Floor == r;
  }

  /** Appending a ball that is placed and overlaps no earlier one keeps the
      registry placed. */
  lemma PlacedSnoc(s: seq<BallState>, b: BallState, minR: int, maxR: int, W: int, H: int)
    requires Placed(s, minR, maxR, W, H) && PlacedBall(b, |s|, minR, maxR, W, H)
    requires forall j :: 0 <= j < |s| ==> !IsOverlapping(GapOf(s[j], b))
    ensures Placed(s + [b], minR, maxR, W, H)
  {
    var t := s + [b];
    forall i | 0 <= i < |t| ensures PlacedBall(t[i], i, minR, maxR, W, H) {
      if i < |s| {
        assert t[i] == s[i];
      }
    }
    forall i, j | 0 <= i < j < |t| ensures !IsOverlapping(GapOf(t[i], t[j])) {
      assert t[i] == s[i];
      if j < |s| {
        assert t[j] == s[j];
      }
    }
  }

  /** One pass of set's for loop on values: ball i gets a radius from draw
      `from`, the first clear centre after it and then the first colour
      that is not reserved, and the next unused draw comes with it. None
      when the draws run out, in place of a search that never ends. */
  function NextBall(s: seq<BallState>, i: int, minR: int, maxR: int, W: int, H: int, draws: seq<real>, from: nat)
    : (res: Option<(BallState, nat)>)
    requires AreDraws(draws)
    ensures res.Some? ==> from < res.value.1 <= |draws| && res.value.0.id == i
  {
    if from >= |draws| then None
    else
      var r := GenerateRadius(minR, maxR, draws[from]);
      var place := FirstClear(Discs(s), r, W, H, draws, from + 1);
      if place.None? then None
      else
        var color := PickColor(draws, place.value.2);
        if color.None? then None
        else Some((BallState(i, place.value.0 as real, place.value.1 as real, r as real, color.value.0, 0.0, 0.0, [], NoBorder), color.value.1))
  }

  /** A pass fails exactly when the radius draw is missing, every centre
      after it lands on a placed ball, or every colour after the centre is
      black or white. */
  lemma NextBallNone(s: seq<BallState>, i: int, minR: int, maxR: int, W: int, H: int, draws: seq<real>, from: nat)
    requires AreDraws(draws)
    ensures NextBall(s, i, minR, maxR, W, H, draws, from).None? <==>
      || from >= |draws|
      || AllRejected(Discs(s), GenerateRadius(minR, maxR, draws[from]), W, H, draws, from + 1)
      || (&& FirstClear(Discs(s), GenerateRadius(minR, maxR, draws[from]), W, H, draws, from + 1).Some?
          && AllReserved(draws, FirstClear(Discs(s), GenerateRadius(minR, maxR, draws[from]), W, H, draws, from + 1).value.2))
  {
    if from < |draws| {
      var r := GenerateRadius(minR, maxR, draws[from]);
      FirstClearNone(Discs(s), r, W, H, draws, from + 1);
      var place := FirstClear(Discs(s), r, W, H, draws, from + 1);
      if place.Some? {
        PickColorNone(draws, place.value.2);
      }
    }
  }

  /** The ball a pass adds is placed as ball |s|. */
  lemma NextBallFits(s: seq<BallState>, minR: int, maxR: int, W: int, H: int, draws: seq<real>, from: nat,
                     b: BallState, next: nat)
    requires AreDraws(draws) && 1 <= |s|
    requires NextBall(s, |s|, minR, maxR, W, H, draws, from) == Some((b, next))
    ensures PlacedBall(b, |s|, minR, maxR, W, H)
  {
    var r := GenerateRadius(minR, maxR, draws[from]);
    var (x, y, n) := FirstClear(Discs(s), r, W, H, draws, from + 1).value;
    FirstClearFirst(Discs(s), r, W, H, draws, from + 1, x, y, n);
    var color := PickColor(draws, n).value.0;
    assert b == BallState(|s|, x as real, y as real, r as real, color, 0.0, 0.0, [], NoBorder);
    NewBallPlaced(|s|, x, y, r, color, minR, maxR, W, H);
  }

  /** A pass that succeeds puts its ball on the first clear attempt
      after the radius draw. */
  lemma NextBallParts(s: seq<BallState>, i: int, minR: int, maxR: int, W: int, H: int, draws: seq<real>, from: nat,
                      b: BallState, next: nat)
    requires AreDraws(draws)
    requires NextBall(s, i, minR, maxR, W, H, draws, from) == Some((b, next))
    ensures from < |draws| && exists k: nat, x: int, y: int ::
      && k + 2 <= |draws| && !Rejected(Discs(s), b.r.Floor, W, H, draws, k)
      && (x, y) == Attempt(b.r.Floor, W, H, draws, k)
      && b.x == x as real && b.y == y as real && b.r == b.r.Floor as real
  {
    var r := GenerateRadius(minR, maxR, draws[from]);
    var (x, y, n) := FirstClear(Discs(s), r, W, H, draws, from + 1).value;
    FirstClearFirst(Discs(s), r, W, H, draws, from + 1, x, y, n);
    assert (r as real).Floor == r;
    assert b.x == x as real && b.y == y as real && b.r == r as real;
  }

  /** The ball a pass adds overlaps none of the balls before it. */
  lemma NextBallClear(s: seq<BallState>, i: int, minR: int, maxR: int, W: int, H: int, draws: seq<real>, from: nat,
                      b: BallState, next: nat)
    requires AreDraws(draws)
    requires NextBall(s, i, minR, maxR, W, H, draws, from) == Some((b, next))
    ensures forall j :: 0 <= j < |s| ==> !IsOverlapping(GapOf(s[j], b))
  {
    NextBallParts(s, i, minR, maxR, W, H, draws, from, b, next);
    var k: nat, x: int, y: int :| && k + 2 <= |draws| && !Rejected(Discs(s), b.r.Floor, W, H, draws, k)
      && (x, y) == Attempt(b.r.Floor, W, H, draws, k)
      && b.x == x as real && b.y == y as real && b.r == b.r.Floor as real;
    ClearOfAll(s, b, b.r.Floor, W, H, draws, k, x, y);
  }

  /** The rest of set's for loop from the registry s: one pass per missing
      ball until there are qty; false, with the balls placed so far, when
      a pass runs out of draws. The last component is the next unused
      draw. */
  function Fill(s: seq<BallState>, qty: int, minR: int, maxR: int, W: int, H: int, draws: seq<real>, from: nat)
    : (res: (seq<BallState>, bool, nat))
    requires AreDraws(draws)
    ensures |s| <= |res.0| <= Max(qty, |s|)
    ensures res.1 <==> |res.0| >= qty
    decreases qty - |s|
  {
    if |s| >= qty then (s, true, from)
    else
      var nb := NextBall(s, |s|, minR, maxR, W, H, draws, from);
      if nb.None? then (s, false, from)
      else
        Fill(s + [nb.value.0], qty, minR, maxR, W, H, draws, nb.value.1)
  }

  lemma {:induction false} FillPlaced(s: seq<BallState>, qty: int, minR: int, maxR: int, W: int, H: int, draws: seq<real>, from: nat)
    requires AreDraws(draws) && 1 <= |s| && Placed(s, minR, maxR, W, H)
    ensures Placed(Fill(s, qty, minR, maxR, W, H, draws, from).0, minR, maxR, W, H)
    decreases qty - |s|
  {
    if |s| < qty {
      var nb := NextBall(s, |s|, minR, maxR, W, H, draws, from);
      if nb.Some? {
        NextBallFits(s, minR, maxR, W, H, draws, from, nb.value.0, nb.value.1);
        NextBallClear(s, |s|, minR, maxR, W, H, draws, from, nb.value.0, nb.value.1);
        PlacedSnoc(s, nb.value.0, minR, maxR, W, H);
        FillPlaced(s + [nb.value.0], qty, minR, maxR, W, H, draws, nb.value.1);
      }
    }
  }

  /** The loop only appends: the balls it starts from stay in front. */
  lemma {:induction false} FillExtends(s: seq<BallState>, qty: int, minR: int, maxR: int, W: int, H: int, draws: seq<real>, from: nat)
    requires AreDraws(draws)
    ensures Fill(s, qty, minR, maxR, W, H, draws, from).0[..|s|] == s
    decreases qty - |s|
  {
    if |s| < qty {
      var nb := NextBall(s, |s|, minR, maxR, W, H, draws, from);
      if nb.Some? {
        var t := s + [nb.value.0];
        FillExtends(t, qty, minR, maxR, W, H, draws, nb.value.1);
        assert Fill(t, qty, minR, maxR, W, H, draws, nb.value.1).0[..|s|] == Fill(t, qty, minR, maxR, W, H, draws, nb.value.1).0[..|t|][..|s|];
      }
    }
  }

  /** The loop stops short only at a pass that fails. */
  lemma {:induction false} FillFails(s: seq<BallState>, qty: int, minR: int, maxR: int, W: int, H: int, draws: seq<real>, from: nat)
    requires AreDraws(draws)
    ensures var res := Fill(s, qty, minR, maxR, W, H, draws, from);
      !res.1 ==> NextBall(res.0, |res.0|, minR, maxR, W, H, draws, res.2).None?
    decreases qty - |s|
  {
    if |s| < qty {
      var nb := NextBall(s, |s|, minR, maxR, W, H, draws, from);
      if nb.Some? {
        FillFails(s + [nb.value.0], qty, minR, maxR, W, H, draws, nb.value.1);
      }
    }
  }

  /** The white cue ball set places first, from the first three draws;
      nothing can overlap it yet. */
  function CueBall(minR: int, maxR: int, H: int, W: int, draws: seq<real>): (b: BallState)
    requires AreDraws(draws) && 3 <= |draws|
    ensures PlacedBall(b, 0, minR, maxR, W, H)
  {
    var r0 := GenerateRadius(minR, maxR, draws[0]);
    var p0 := GenerateCoordinates(r0 + 5, W - r0 - 5, r0 + 5, H - r0 - 5, draws[1], draws[2]);
    NewBallPlaced(0, p0.0, p0.1, r0, "#ffffff", minR, maxR, W, H);
    BallState(0, p0.0 as real, p0.1 as real, r0 as real, "#ffffff", 0.0, 0.0, [], NoBorder)
  }

  /** The registry Ball.set builds, whether it is complete, and the next
      unused draw: the cue ball, then the for loop. */
  function SetResult(qty: int, minR: int, maxR: int, H: int, W: int, draws: seq<real>): (res: (seq<BallState>, bool, nat))
    requires AreDraws(draws)
    ensures res.1 <==> |res.0| == Max(qty, 1)
    ensures |res.0| <= Max(qty, 1)
  {
    if |draws| < 3 then ([], false, 0)
    else if qty == 1 then ([CueBall(minR, maxR, H, W, draws)], true, 3)
    else Fill([CueBall(minR, maxR, H, W, draws)], qty, minR, maxR, W, H, draws, 3)
  }

  /** Whatever set leaves behind is placed. */
  lemma SetResultPlaced(qty: int, minR: int, maxR: int, H: int, W: int, draws: seq<real>)
    requires AreDraws(draws)
    ensures Placed(SetResult(qty, minR, maxR, H, W, draws).0, minR, maxR, W, H)
  {
    if |draws| >= 3 {
      var b0 := CueBall(minR, maxR, H, W, draws);
      assert Placed([b0], minR, maxR, W, H);
      if qty != 1 {
        FillPlaced([b0], qty, minR, maxR, W, H, draws, 3);
      }
    }
  }

  /** set gives up only when the cue ball's draws are missing or a pass of
      the for loop fails. */
  lemma SetResultFails(qty: int, minR: int, maxR: int, H: int, W: int, draws: seq<real>)
    requires AreDraws(draws)
    ensures var res := SetResult(qty, minR, maxR, H, W, draws);
      !res.1 ==> |draws| < 3 || NextBall(res.0, |res.0|, minR, maxR, W, H, draws, res.2).None?
  {
    if |draws| >= 3 && qty != 1 {
      FillFails([CueBall(minR, maxR, H, W, draws)], qty, minR, maxR, W, H, draws, 3);
    }
  }

  /** The static part of Ball: Ball.balls, Ball.W, Ball.H and
      Ball.attenuationRatio, with their initial values. */
  class Registry {
    var balls: seq<Ball>
    var W: real
    var H: real
    var attenuationRatio: real

    constructor ()
      ensures balls == [] && W == 0.0 && H == 0.0 && attenuationRatio == 0.8
    {
      balls := [];
      W, H := 0.0, 0.0;
      attenuationRatio := 0.8;
    }

    ghost function States(): (s: seq<BallState>)
      reads this, balls
      ensures |s| == |balls| && forall i :: 0 <= i < |balls| ==> s[i] == balls[i].State()
    {
      seq(|balls|, i reads this, balls requires 0 <= i < |balls| => balls[i].State())
    }

    ghost predicate Valid()
      reads this, balls
    {
      WellFormed(States())
    }

    /** b is Ball.balls[b.id] */
    predicate Holds(b: Ball)
      reads this
    {
      0 <= b.id < |balls| && balls[b.id] == b
    }

    /** Under the invariant a ball's id is its index, so distinct indices
        hold distinct objects. */
    lemma IdsAreIndices()
      requires Valid()
      ensures forall i :: 0 <= i < |balls| ==> balls[i].id == i
    {
      forall i | 0 <= i < |balls| ensures balls[i].id == i {
        assert States()[i].id == i;
      }
    }

    /** Under the invariant the contacts of a registered ball are indices. */
    lemma ContactsInRange(b: Ball)
      requires Valid() && Holds(b)
      ensures forall c :: c in b.collapseWith ==> 0 <= c < |balls|
    {
      assert States()[b.id] == b.State();
    }

    /** isOverlapping(x, y, r) of set: some ball already placed overlaps
        the candidate. */
    predicate Overlaps(x: real, y: real, r: real)
      reads this, balls
      ensures Overlaps(x, y, r) <==> OverlapsAny(Discs(States()), x, y, r)
    {
      exists j :: 0 <= j < |balls| && IsOverlapping(GetDistance(balls[j].x, balls[j].y, balls[j].r, x, y, r))
    }

    /** this.balls.push(new Ball(id, x0, y0, r, color)) */
    method Push(id: int, x0: real, y0: real, r: real, color: string) returns (b: Ball)
      modifies this
      ensures balls == old(balls) + [b] && fresh(b)
      ensures States() == old(States()) + [BallState(id, x0, y0, r, color, 0.0, 0.0, [], NoBorder)]
      ensures W == old(W) && H == old(H) && attenuationRatio == old(attenuationRatio)
    {
      b := new Ball(id, x0, y0, r, color);
      balls := balls + [b];
      assert States() == old(States()) + [b.State()];
    }

    /** The do-while loop of set: draw coordinates in the band for radius
        `r` until no placed ball overlaps them. The result is the first
        clear attempt with the next unused draw; None when the draws run
        out, in place of a loop that never ends. */
    method PickPlace(r: int, W: int, H: int, draws: seq<real>, from: nat) returns (res: Option<(int, int, nat)>)
      requires AreDraws(draws)
      ensures res == FirstClear(Discs(States()), r, W, H, draws, from)
      ensures res.Some? ==> var (x, y, next) := res.value;
        && from + 2 <= next <= |draws|
        && InBand(x as real, r, W) && InBand(y as real, r, H)
        && !Overlaps(x as real, y as real, r as real)
    {
      ghost var ds := Discs(States());
      var next := from;
      var xI, yI := Round(W as real / 2.0), Round(H as real / 2.0);
      var clear := false;
      while !clear
        invariant from <= next
        invariant !clear ==> FirstClear(ds, r, W, H, draws, next) == FirstClear(ds, r, W, H, draws, from)
        invariant clear ==> FirstClear(ds, r, W, H, draws, from) == Some((xI, yI, next))
        invariant clear ==> from + 2 <= next <= |draws|
        invariant clear ==> !Overlaps(xI as real, yI as real, r as real)
        invariant clear ==> InBand(xI as real, r, W) && InBand(yI as real, r, H)
        decreases |draws| - next, if clear then 0 else 1
      {
        if next + 2 > |draws| {
          return None;
        }
        var p := GenerateCoordinates(r + 5, W - r - 5, r + 5, H - r - 5, draws[next], draws[next + 1]);
        assert p == Attempt(r, W, H, draws, next);
        next := next + 2;
        xI, yI := p.0, p.1;
        clear := !Overlaps(xI as real, yI as real, r as real);
      }
      return Some((xI, yI, next));
    }

    /** One pass of set's for loop: a radius, a clear position, a random
        colour, then the new ball is pushed, exactly as NextBall says;
        None, with nothing pushed, when the draws run out. */
    method AddBall(i: int, minR: int, maxR: int, width: int, height: int, draws: seq<real>, from: nat)
      returns (next: Option<nat>)
      requires AreDraws(draws) && 0 < minR && 0 < maxR
      requires 1 <= i == |balls| && Placed(States(), minR, maxR, width, height)
      modifies this
      ensures W == old(W) && H == old(H) && attenuationRatio == old(attenuationRatio)
      ensures Placed(States(), minR, maxR, width, height)
      ensures next.None? <==> NextBall(old(States()), i, minR, maxR, width, height, draws, from).None?
      ensures next.None? ==> balls == old(balls)
      ensures next.Some? ==>
        && States() == old(States()) + [NextBall(old(States()), i, minR, maxR, width, height, draws, from).value.0]
        && next.value == NextBall(old(States()), i, minR, maxR, width, height, draws, from).value.1
        && exists b: Ball :: balls == old(balls) + [b] && fresh(b)
    {
      if from >= |draws| {
        return None;
      }
      var r := GenerateRadius(minR, maxR, draws[from]);
      var place := PickPlace(r, width, height, draws, from + 1);
      if place.None? {
        return None;
      }
      var (xI, yI, after) := place.value;
      var c := GenerateColor(draws, after);
      if c.None? {
        return None;
      }
      ghost var s := States();
      ghost var b := BallState(i, xI as real, yI as real, r as real, c.value.0, 0.0, 0.0, [], NoBorder);
      assert NextBall(s, i, minR, maxR, width, height, draws, from) == Some((b, c.value.1));
      NextBallFits(s, minR, maxR, width, height, draws, from, b, c.value.1);
      NextBallClear(s, i, minR, maxR, width, height, draws, from, b, c.value.1);
      var nb := Push(i, xI as real, yI as real, r as real, c.value.0);
      assert States() == s + [b];
      PlacedSnoc(s, b, minR, maxR, width, height);
      return Some(c.value.1);
    }

    /** Ball.set(config). Math.random is the sequence `draws`, consumed in
        source order (a radius, then two coordinates per try, then six hex
        digits per colour attempt); `ok` is false when the draws run out
        before the registry is complete, leaving the balls placed so far. */
    method Set(qty: int, minR: int, maxR: int, H: int, W: int, attenuationRatio: real, draws: seq<real>)
      returns (ok: bool)
      requires AreDraws(draws) && 0 < minR && 0 < maxR
      modifies this
      ensures this.W == W as real && this.H == H as real && this.attenuationRatio == attenuationRatio
      ensures States() == SetResult(qty, minR, maxR, H, W, draws).0 && ok == SetResult(qty, minR, maxR, H, W, draws).1
      ensures Placed(States(), minR, maxR, W, H) && Valid()
      ensures ok <==> |balls| == Max(qty, 1)
      ensures fresh(balls)
    {
      balls := [];
      this.H := H as real;
      this.W := W as real;
      this.attenuationRatio := attenuationRatio;
      if |draws| < 3 {
        assert States() == [];
        return false;
      }
      var r0 := GenerateRadius(minR, maxR, draws[0]);
      var p0 := GenerateCoordinates(r0 + 5, W - r0 - 5, r0 + 5, H - r0 - 5, draws[1], draws[2]);
      var b0 := Push(0, p0.0 as real, p0.1 as real, r0 as real, "#ffffff");
      ghost var cue := CueBall(minR, maxR, H, W, draws);
      assert States() == [cue];
      assert Placed([cue], minR, maxR, W, H);
      if qty == 1 {
        PlacedWellFormed(States(), minR, maxR, W, H);
        return true;
      }
      ok := AddBalls(qty, minR, maxR, W, H, draws, 3);
      assert balls[0] == b0;
      PlacedWellFormed(States(), minR, maxR, W, H);
    }

    /** The for loop of set, from ball |balls| on, with `from` the first
        unused draw: the balls it pushes are the ones Fill lists. */
    method AddBalls(qty: int, minR: int, maxR: int, width: int, height: int, draws: seq<real>, from: nat)
      returns (ok: bool)
      requires AreDraws(draws) && 0 < minR && 0 < maxR
      requires 1 <= |balls| && Placed(States(), minR, maxR, width, height)
      modifies this
      ensures W == old(W) && H == old(H) && attenuationRatio == old(attenuationRatio)
      ensures States() == Fill(old(States()), qty, minR, maxR, width, height, draws, from).0
      ensures ok == Fill(old(States()), qty, minR, maxR, width, height, draws, from).1
      ensures Placed(States(), minR, maxR, width, height)
      ensures |old(balls)| <= |balls| && balls[..|old(balls)|] == old(balls)
      ensures forall j :: |old(balls)| <= j < |balls| ==> fresh(balls[j])
    {
      var next := from;
      var i := |balls|;
      while i < qty
        invariant |old(balls)| <= i == |balls|
        invariant W == old(W) && H == old(H) && attenuationRatio == old(attenuationRatio)
        invariant Placed(States(), minR, maxR, width, height)
        invariant Fill(States(), qty, minR, maxR, width, height, draws, next)
               == Fill(old(States()), qty, minR, maxR, width, height, draws, from)
        invariant balls[..|old(balls)|] == old(balls)
        invariant forall j :: |old(balls)| <= j < |balls| ==> fresh(balls[j])
        decreases qty - i
      {
        var after := AddBall(i, minR, maxR, width, height, draws, next);
        if after.None? {
          return false;
        }
        next := after.value;
        i := i + 1;
      }
      return true;
    }
  }
}
