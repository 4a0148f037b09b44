/** The rules of src/objects/ball.ts stated on values: what each method of
    class Ball does to one ball (and, for a collision, to two), given the
    registry's snapshot of the other balls. The heap classes in module
    Balls are proved to follow these functions. */
module BallRules {
  import opened Utils
  import opened Cursor

  /** Ball.border: the wall whose bounce is being debounced; NoBorder is null. */
  datatype Border = NoBorder | Left | Top | Right | Bottom

  /** The fields of a Ball, as a value; `contacts` is the Set collapseWith,
      listed in insertion order (the order in which forEach visits it). */
  datatype BallState = BallState(
    id: int, x: real, y: real, r: real, color: string,
    vx: real, vy: real, contacts: seq<int>, border: Border)

  // ---------------------------------------------------------------------
  // Contact sets: Set.add and Set.delete on an insertion-ordered sequence

  predicate NoDup(s: seq<int>)
  {
    forall i, j :: 0 <= i < j < |s| ==> s[i] != s[j]
  }

  /** collapseWith.add(v) */
  function Added(s: seq<int>, v: int): (t: seq<int>)
    ensures forall w :: w in t <==> w in s || w == v
    ensures NoDup(s) ==> NoDup(t)
    ensures |s| <= |t| && t[..|s|] == s
  {
    if v in s then s else s + [v]
  }

  /** collapseWith.delete(v) */
  function Removed(s: seq<int>, v: int): (t: seq<int>)
    ensures forall w :: w in t <==> w in s && w != v
    ensures NoDup(s) ==> NoDup(t)
    ensures v !in s ==> t == s
  {
    if s == [] then []
    else if s[0] == v then Removed(s[1..], v)
    else
      var rest := Removed(s[1..], v);
      assert NoDup(s) ==> s[0] !in s[1..] && NoDup(s[1..]);
      [s[0]] + rest
  }

  // ---------------------------------------------------------------------
  // handleCollapse: the contact hysteresis

  /** The two contact sets after one handleCollapse and whether the
      impulse is applied. `g` is the sign of the signed gap. */
  datatype ContactUpdate = ContactUpdate(c1: seq<int>, c2: seq<int>, impulse: bool)

  function ContactStep(c1: seq<int>, c2: seq<int>, id1: int, id2: int, g: Gap): ContactUpdate
  {
    if IsTouching(g) && id2 !in c1 then ContactUpdate(Added(c1, id2), Added(c2, id1), true)
    else if g == Positive then ContactUpdate(Removed(c1, id2), Removed(c2, id1), false)
    else ContactUpdate(c1, c2, false)
  }

  /** The three cases of the contact rule: an impulse exactly on a new
      contact, no change while the pair stays in contact, both entries
      removed on separation. */
  lemma ContactStepCases(c1: seq<int>, c2: seq<int>, id1: int, id2: int, g: Gap)
    ensures var u := ContactStep(c1, c2, id1, id2, g);
      && (u.impulse <==> IsTouching(g) && id2 !in c1)
      && (u.impulse ==> id2 in u.c1 && id1 in u.c2)
      && (IsTouching(g) && id2 in c1 ==> u == ContactUpdate(c1, c2, false))
      && (g == Positive ==> id2 !in u.c1 && id1 !in u.c2)
      && (forall w :: w != id2 ==> (w in u.c1 <==> w in c1))
      && (forall w :: w != id1 ==> (w in u.c2 <==> w in c2))
  {
  }

  /** Each ball's contact set afterwards holds the other's id exactly when
      the gap is non-positive, provided the two sets agreed before. */
  lemma ContactStepAgrees(c1: seq<int>, c2: seq<int>, id1: int, id2: int, g: Gap)
    requires id2 in c1 <==> id1 in c2
    ensures var u := ContactStep(c1, c2, id1, id2, g);
      (id2 in u.c1 <==> IsTouching(g)) && (id1 in u.c2 <==> IsTouching(g))
  {
  }

  function GapOf(b1: BallState, b2: BallState): Gap
  {
    GetDistance(b1.x, b1.y, b1.r, b2.x, b2.y, b2.r)
  }

  function CollapseDataOf(b1: BallState, b2: BallState, k: real): CollapseData
  {
    CollapseData(b1.x, b1.y, b1.r, b1.vx, b1.vy, b2.x, b2.y, b2.r, b2.vx, b2.vy, k)
  }

  /** Ball.handleCollapse(ball1, ball2) with attenuationRatio `k`. */
  function Collide(b1: BallState, b2: BallState, k: real, trig: Trig): (res: (BallState, BallState))
    requires Cube(b1.r) + Cube(b2.r) != 0.0
  {
    var u := ContactStep(b1.contacts, b2.contacts, b1.id, b2.id, GapOf(b1, b2));
    if u.impulse then
      var v := GetSpeeds(CollapseDataOf(b1, b2, k), trig);
      (b1.(contacts := u.c1, vx := v.vx1New, vy := v.vy1New),
       b2.(contacts := u.c2, vx := v.vx2New, vy := v.vy2New))
    else
      (b1.(contacts := u.c1), b2.(contacts := u.c2))
  }

  /** A new contact: each set gains the other's id and the four velocities
      are exactly getSpeeds' outputs. */
  lemma CollideOnContact(b1: BallState, b2: BallState, k: real, trig: Trig)
    requires Cube(b1.r) + Cube(b2.r) != 0.0
    requires IsTouching(GapOf(b1, b2)) && b2.id !in b1.contacts
    ensures var res := Collide(b1, b2, k, trig);
      var v := GetSpeeds(CollapseDataOf(b1, b2, k), trig);
      && res.0 == b1.(contacts := Added(b1.contacts, b2.id), vx := v.vx1New, vy := v.vy1New)
      && res.1 == b2.(contacts := Added(b2.contacts, b1.id), vx := v.vx2New, vy := v.vy2New)
      && b2.id in res.0.contacts && b1.id in res.1.contacts
  {
  }

  /** Still touching and already in contact: nothing changes. */
  lemma CollideHolds(b1: BallState, b2: BallState, k: real, trig: Trig)
    requires Cube(b1.r) + Cube(b2.r) != 0.0
    requires IsTouching(GapOf(b1, b2)) && b2.id in b1.contacts
    ensures Collide(b1, b2, k, trig) == (b1, b2)
  {
  }

  /** Apart: both sets lose the other's id; velocities and positions are
      untouched. */
  lemma CollideSeparates(b1: BallState, b2: BallState, k: real, trig: Trig)
    requires Cube(b1.r) + Cube(b2.r) != 0.0
    requires GapOf(b1, b2) == Positive
    ensures var res := Collide(b1, b2, k, trig);
      && res.0 == b1.(contacts := Removed(b1.contacts, b2.id))
      && res.1 == b2.(contacts := Removed(b2.contacts, b1.id))
      && b2.id !in res.0.contacts && b1.id !in res.1.contacts
  {
  }

  /** Collisions only change velocities and contact sets. */
  lemma CollideKeepsPlace(b1: BallState, b2: BallState, k: real, trig: Trig)
    requires Cube(b1.r) + Cube(b2.r) != 0.0
    ensures var res := Collide(b1, b2, k, trig);
      && res.0.(vx := b1.vx, vy := b1.vy, contacts := b1.contacts) == b1
      && res.1.(vx := b2.vx, vy := b2.vy, contacts := b2.contacts) == b2
  {
  }

  // ---------------------------------------------------------------------
  // The registry invariant

  /** Contact is a symmetric relation between the balls at indices i, j. */
  ghost predicate Symmetric(s: seq<BallState>)
  {
    forall i, j :: 0 <= i < |s| && 0 <= j < |s| ==> (s[j].id in s[i].contacts <==> s[i].id in s[j].contacts)
  }

  /** Ball.balls as set up by Ball.set and kept by every method: ids are
      the indices, radii are positive, contact sets are duplicate-free,
      name other balls only, and agree pairwise. */
  ghost predicate WellFormed(s: seq<BallState>)
  {
    && (forall i :: 0 <= i < |s| ==> s[i].id == i && s[i].r > 0.0 && NoDup(s[i].contacts))
    && (forall i, c :: 0 <= i < |s| && c in s[i].contacts ==> 0 <= c < |s| && c != i)
    && Symmetric(s)
  }

  /** A change that keeps ids, radii and contact sets keeps the invariant. */
  lemma WellFormedFrame(s: seq<BallState>, t: seq<BallState>)
    requires WellFormed(s) && |t| == |s|
    requires forall i :: 0 <= i < |s| ==> t[i].id == s[i].id && t[i].r == s[i].r && t[i].contacts == s[i].contacts
    ensures WellFormed(t)
  {
  }

  /** Replacing the contact sets of two distinct balls by the result of the
      contact rule keeps the registry well formed. */
  lemma ContactStepPreservesWellFormed(s: seq<BallState>, t: seq<BallState>, i: int, j: int, g: Gap)
    requires WellFormed(s) && 0 <= i < |s| && 0 <= j < |s| && i != j && |t| == |s|
    requires forall p :: 0 <= p < |s| ==> t[p].id == s[p].id && t[p].r == s[p].r
    requires forall p :: 0 <= p < |s| && p != i && p != j ==> t[p].contacts == s[p].contacts
    requires var u := ContactStep(s[i].contacts, s[j].contacts, i, j, g);
      t[i].contacts == u.c1 && t[j].contacts == u.c2
    ensures WellFormed(t)
  {
    ContactStepCases(s[i].contacts, s[j].contacts, i, j, g);
    ContactStepAgrees(s[i].contacts, s[j].contacts, i, j, g);
    forall p, q | 0 <= p < |t| && 0 <= q < |t|
      ensures t[q].id in t[p].contacts <==> t[p].id in t[q].contacts
    {
      if !((p == i && q == j) || (p == j && q == i)) {
        assert q in t[p].contacts <==> q in s[p].contacts;
        assert p in t[q].contacts <==> p in s[q].contacts;
      }
    }
  }

  /** Collide writes the contact sets of the contact rule and keeps ids and
      radii. */
  lemma CollideContacts(b1: BallState, b2: BallState, k: real, trig: Trig)
    requires Cube(b1.r) + Cube(b2.r) != 0.0
    ensures var res := Collide(b1, b2, k, trig);
      var u := ContactStep(b1.contacts, b2.contacts, b1.id, b2.id, GapOf(b1, b2));
      && res.0.id == b1.id && res.0.r == b1.r && res.0.contacts == u.c1
      && res.1.id == b2.id && res.1.r == b2.r && res.1.contacts == u.c2
  {
  }

  /** handleCollapse on two distinct balls of a well-formed registry keeps
      it well formed; in particular contact stays symmetric. */
  lemma CollidePreservesWellFormed(s: seq<BallState>, i: int, j: int, k: real, trig: Trig)
    requires WellFormed(s) && 0 <= i < |s| && 0 <= j < |s| && i != j
    ensures Cube(s[i].r) + Cube(s[j].r) != 0.0
    ensures var res := Collide(s[i], s[j], k, trig);
      WellFormed(s[i := res.0][j := res.1])
  {
    DenominatorPositive(s[i].r, s[j].r);
    var res := Collide(s[i], s[j], k, trig);
    CollideContacts(s[i], s[j], k, trig);
    ContactStepPreservesWellFormed(s, s[i := res.0][j := res.1], i, j, GapOf(s[i], s[j]));
  }

  // ---------------------------------------------------------------------
  // handleBorderTouch

  /** The part of a ball that handleBorderTouch writes. */
  datatype Motion = Motion(vx: real, vy: real, border: Border)

  /** The wall test of each branch of handleBorderTouch. */
  predicate Crossed(w: Border, x: real, y: real, r: real, W: real, H: real)
  {
    match w
    case NoBorder => false
    case Left => x - r <= 0.0
    case Right => x + r >= W
    case Top => y - r <= 0.0
    case Bottom => y + r >= H
  }

  /** One branch of handleBorderTouch for wall `w`. */
  function Bounce(m: Motion, w: Border, x: real, y: real, r: real, W: real, H: real, k: real): Motion
  {
    if Crossed(w, x, y, r, W, H) && m.border != w then
      match w
      case Left => Motion(-m.vx * k, m.vy * k, Left)
      case Right => Motion(-m.vx * k, m.vy * k, Right)
      case Top => Motion(m.vx * k, -m.vy * k, Top)
      case Bottom => Motion(m.vx * k, -m.vy * k, Bottom)
      case NoBorder => m
    else m
  }

  /** handleBorderTouch: the four branches in source order (left, right,
      top, bottom), each seeing the border written by the ones before. */
  function BorderTouch(m: Motion, x: real, y: real, r: real, W: real, H: real, k: real): Motion
  {
    var m1 := Bounce(m, Left, x, y, r, W, H, k);
    var m2 := Bounce(m1, Right, x, y, r, W, H, k);
    var m3 := Bounce(m2, Top, x, y, r, W, H, k);
    Bounce(m3, Bottom, x, y, r, W, H, k)
  }

  /** A branch fires only if its wall is crossed and is not the debounced
      one; it then negates the normal component, scales both components by
      the ratio and records the wall. */
  lemma BounceRule(m: Motion, w: Border, x: real, y: real, r: real, W: real, H: real, k: real)
    requires w != NoBorder
    ensures var n := Bounce(m, w, x, y, r, W, H, k);
      && (!Crossed(w, x, y, r, W, H) || m.border == w ==> n == m)
      && (Crossed(w, x, y, r, W, H) && m.border != w ==>
            n.border == w
            && (w == Left || w == Right ==> n.vx == -m.vx * k && n.vy == m.vy * k)
            && (w == Top || w == Bottom ==> n.vx == m.vx * k && n.vy == -m.vy * k))
  {
  }

  /** Away from all four walls nothing changes. */
  lemma BorderTouchQuiet(m: Motion, x: real, y: real, r: real, W: real, H: real, k: real)
    requires !Crossed(Left, x, y, r, W, H) && !Crossed(Right, x, y, r, W, H)
    requires !Crossed(Top, x, y, r, W, H) && !Crossed(Bottom, x, y, r, W, H)
    ensures BorderTouch(m, x, y, r, W, H, k) == m
  {
  }

  /** Debounce: touching only the wall that already bounced the ball
      changes nothing. */
  lemma BorderTouchDebounced(m: Motion, x: real, y: real, r: real, W: real, H: real, k: real)
    requires m.border != NoBorder && Crossed(m.border, x, y, r, W, H)
    requires forall w :: w != m.border && Crossed(w, x, y, r, W, H) ==> false
    ensures BorderTouch(m, x, y, r, W, H, k) == m
  {
    assert !Crossed(Left, x, y, r, W, H) || m.border == Left;
    assert !Crossed(Right, x, y, r, W, H) || m.border == Right;
    assert !Crossed(Top, x, y, r, W, H) || m.border == Top;
    assert !Crossed(Bottom, x, y, r, W, H) || m.border == Bottom;
  }

  /** A corner (left and top walls crossed, border clear) bounces off both
      walls in one call; the later top branch overwrites the border. */
  lemma BorderTouchCorner(m: Motion, x: real, y: real, r: real, W: real, H: real, k: real)
    requires m.border == NoBorder
    requires Crossed(Left, x, y, r, W, H) && Crossed(Top, x, y, r, W, H)
    requires !Crossed(Right, x, y, r, W, H) && !Crossed(Bottom, x, y, r, W, H)
    ensures BorderTouch(m, x, y, r, W, H, k) == Motion(-m.vx * k * k, -m.vy * k * k, Top)
  {
    var m1 := Bounce(m, Left, x, y, r, W, H, k);
    assert m1 == Motion(-m.vx * k, m.vy * k, Left);
    var m3 := Bounce(m1, Top, x, y, r, W, H, k);
    assert m3 == Motion(-m.vx * k * k, -(m.vy * k) * k, Top);
  }

  /** The border after a call is the old one or a wall that is crossed. */
  lemma BorderTouchBorder(m: Motion, x: real, y: real, r: real, W: real, H: real, k: real)
    ensures var n := BorderTouch(m, x, y, r, W, H, k);
      n.border == m.border || Crossed(n.border, x, y, r, W, H)
  {
  }

  function Speed2(m: Motion): real { Sq(m.vx) + Sq(m.vy) }

  lemma BounceEnergy(m: Motion, w: Border, x: real, y: real, r: real, W: real, H: real, k: real)
    requires 0.0 <= k <= 1.0
    ensures Speed2(Bounce(m, w, x, y, r, W, H, k)) <= Speed2(m)
  {
    var n := Bounce(m, w, x, y, r, W, H, k);
    if n != m {
      var kk := k * k;
      assert 0.0 <= kk <= 1.0 by {
        assert k * k <= k * 1.0;
      }
      assert Sq(n.vx) == kk * Sq(m.vx) && Sq(n.vy) == kk * Sq(m.vy) by {
        assert Sq(-m.vx * k) == kk * Sq(m.vx);
        assert Sq(-m.vy * k) == kk * Sq(m.vy);
        assert Sq(m.vx * k) == kk * Sq(m.vx);
        assert Sq(m.vy * k) == kk * Sq(m.vy);
      }
      var e := Speed2(m);
      assert Speed2(n) == kk * e;
      assert 0.0 <= e;
      assert kk * e <= 1.0 * e;
    }
  }

  /** With a ratio in [0, 1] a wall bounce never adds speed. */
  lemma BorderTouchEnergy(m: Motion, x: real, y: real, r: real, W: real, H: real, k: real)
    requires 0.0 <= k <= 1.0
    ensures Speed2(BorderTouch(m, x, y, r, W, H, k)) <= Speed2(m)
  {
    var m1 := Bounce(m, Left, x, y, r, W, H, k);
    var m2 := Bounce(m1, Right, x, y, r, W, H, k);
    var m3 := Bounce(m2, Top, x, y, r, W, H, k);
    BounceEnergy(m, Left, x, y, r, W, H, k);
    BounceEnergy(m1, Right, x, y, r, W, H, k);
    BounceEnergy(m2, Top, x, y, r, W, H, k);
    BounceEnergy(m3, Bottom, x, y, r, W, H, k);
  }

  function MotionOf(b: BallState): Motion { Motion(b.vx, b.vy, b.border) }

  /** handleBorderTouch on a whole ball, with Ball.W, Ball.H and
      Ball.attenuationRatio. */
  function BorderTouchBall(b: BallState, W: real, H: real, k: real): (res: BallState)
    ensures res.(vx := b.vx, vy := b.vy, border := b.border) == b
  {
    var m := BorderTouch(MotionOf(b), b.x, b.y, b.r, W, H, k);
    b.(vx := m.vx, vy := m.vy, border := m.border)
  }

  // ---------------------------------------------------------------------
  // setX, setY

  datatype Axis = XAxis | YAxis

  datatype Disc = Disc(x: real, y: real, r: real)

  function DiscOf(b: BallState): Disc { Disc(b.x, b.y, b.r) }

  function Coord(d: Disc, a: Axis): real
  {
    match a
    case XAxis => d.x
    case YAxis => d.y
  }

  /** c, pulled into [lo, hi]; the lower bound is tested first. */
  function Clamp(c: real, lo: real, hi: real): (v: real)
    ensures lo <= hi ==> lo <= v <= hi
    ensures lo <= c <= hi ==> v == c
    ensures v == c || v == lo || v == hi
  {
    if c < lo then lo else if c > hi then hi else c
  }

  /** One forEach step: a peer still touching this ball (by the current,
      not the candidate, position) that the candidate approaches along the
      axis makes the step go the other way. */
  function Mirror(a: Axis, cand: real, self: Disc, p: Disc): real
  {
    var own := Coord(self, a);
    if IsTouching(GetDistance(self.x, self.y, self.r, p.x, p.y, p.r))
       && Abs(cand - Coord(p, a)) < Abs(own - Coord(p, a))
    then own - (cand - own)
    else cand
  }

  /** The forEach loop over the contact peers, in order. */
  function Reflect(a: Axis, cand: real, self: Disc, peers: seq<Disc>): real
    decreases |peers|
  {
    if peers == [] then cand
    else Mirror(a, Reflect(a, cand, self, peers[..|peers| - 1]), self, peers[|peers| - 1])
  }

  /** Reflection keeps the length of the step and may only flip its
      direction. */
  lemma {:induction false} ReflectKeepsStep(a: Axis, cand: real, self: Disc, peers: seq<Disc>)
    ensures Abs(Reflect(a, cand, self, peers) - Coord(self, a)) == Abs(cand - Coord(self, a))
    decreases |peers|
  {
    if peers != [] {
      ReflectKeepsStep(a, cand, self, peers[..|peers| - 1]);
    }
  }

  /** Against a single touching peer the reflected position is never
      closer to it along the axis than the current one. */
  lemma MirrorNotCloser(a: Axis, cand: real, self: Disc, p: Disc)
    requires IsTouching(GetDistance(self.x, self.y, self.r, p.x, p.y, p.r))
    ensures Abs(Mirror(a, cand, self, p) - Coord(p, a)) >= Abs(Coord(self, a) - Coord(p, a))
  {
  }

  /** The snapshot of the contact peers that forEach reads through
      Ball.balls[id]. */
  function Peers(s: seq<BallState>, ids: seq<int>): (ps: seq<Disc>)
    ensures |ps| <= |ids|
    ensures ids == [] ==> ps == []
    decreases |ids|
  {
    if ids == [] then []
    else
      var id := ids[|ids| - 1];
      Peers(s, ids[..|ids| - 1]) + (if 0 <= id < |s| then [DiscOf(s[id])] else [])
  }

  /** One more forEach step. */
  lemma ReflectSnoc(a: Axis, cand: real, self: Disc, peers: seq<Disc>, d: Disc)
    ensures Reflect(a, cand, self, peers + [d]) == Mirror(a, Reflect(a, cand, self, peers), self, d)
  {
    assert (peers + [d])[..|peers|] == peers;
  }

  /** One more peer id, in range. */
  lemma PeersSnoc(s: seq<BallState>, ids: seq<int>, k: int)
    requires 0 <= k < |ids| && 0 <= ids[k] < |s|
    ensures Peers(s, ids[..k + 1]) == Peers(s, ids[..k]) + [DiscOf(s[ids[k]])]
  {
    assert ids[..k + 1][..k] == ids[..k];
  }

  /** The peers do not depend on balls that are not among them. */
  lemma {:induction false} PeersFrame(s: seq<BallState>, ids: seq<int>, i: int, b: BallState)
    requires 0 <= i < |s| && i !in ids
    ensures Peers(s[i := b], ids) == Peers(s, ids)
    decreases |ids|
  {
    if ids != [] {
      PeersFrame(s, ids[..|ids| - 1], i, b);
    }
  }

  /** setX(cand) with the registry snapshot `s` and Ball.W. */
  function SetXState(b: BallState, cand: real, s: seq<BallState>, W: real): (res: BallState)
    ensures res.(x := b.x) == b
  {
    b.(x := Reflect(XAxis, Clamp(cand, b.r, W - b.r), DiscOf(b), Peers(s, b.contacts)))
  }

  /** setY(cand) with the registry snapshot `s` and Ball.H. */
  function SetYState(b: BallState, cand: real, s: seq<BallState>, H: real): (res: BallState)
    ensures res.(y := b.y) == b
  {
    b.(y := Reflect(YAxis, Clamp(cand, b.r, H - b.r), DiscOf(b), Peers(s, b.contacts)))
  }

  /** With an empty contact set setX only clamps: the ball ends inside
      [r, W - r] and lands on the candidate when that is inside. */
  lemma SetXContained(b: BallState, cand: real, s: seq<BallState>, W: real)
    requires b.contacts == [] && b.r <= W - b.r
    ensures var res := SetXState(b, cand, s, W);
      b.r <= res.x <= W - b.r && (b.r <= cand <= W - b.r ==> res.x == cand)
  {
  }

  /** The same for setY and H. */
  lemma SetYContained(b: BallState, cand: real, s: seq<BallState>, H: real)
    requires b.contacts == [] && b.r <= H - b.r
    ensures var res := SetYState(b, cand, s, H);
      b.r <= res.y <= H - b.r && (b.r <= cand <= H - b.r ==> res.y == cand)
  {
  }

  /** With contacts the reflection can leave the table: a ball flush with
      the right wall (W = 100, r = 10, x = 90) stepping left towards a
      touching ball at x = 75 is mirrored to x = 93 > W - r. */
  lemma ReflectionCanLeaveTable()
    ensures var b := BallState(1, 90.0, 50.0, 10.0, "#123456", -3.0, 0.0, [0], NoBorder);
      var peer := BallState(0, 75.0, 50.0, 10.0, "#ffffff", 0.0, 0.0, [1], NoBorder);
      SetXState(b, b.x + b.vx, [peer, b], 100.0).x == 93.0
  {
    var b := BallState(1, 90.0, 50.0, 10.0, "#123456", -3.0, 0.0, [0], NoBorder);
    var peer := BallState(0, 75.0, 50.0, 10.0, "#ffffff", 0.0, 0.0, [1], NoBorder);
    assert Peers([peer, b], [0]) == [Disc(75.0, 50.0, 10.0)] by {
      assert [0][..0] == [];
    }
  }

  /** move(): setX(x + vx), then setY(y + vy) from the new x. */
  function Move(b: BallState, s: seq<BallState>, W: real, H: real): (res: BallState)
    ensures res.(x := b.x, y := b.y) == b
  {
    var b1 := SetXState(b, b.x + b.vx, s, W);
    SetYState(b1, b1.y + b1.vy, s, H)
  }

  /** A free ball moves by its velocity, clamped to the table. */
  lemma MoveFree(b: BallState, s: seq<BallState>, W: real, H: real)
    requires b.contacts == [] && b.r <= W - b.r && b.r <= H - b.r
    ensures var res := Move(b, s, W, H);
      && res.x == Clamp(b.x + b.vx, b.r, W - b.r) && res.y == Clamp(b.y + b.vy, b.r, H - b.r)
      && b.r <= res.x <= W - b.r && b.r <= res.y <= H - b.r
  {
  }

  // ---------------------------------------------------------------------
  // handleStroke

  /** The grip condition of handleStroke: the cursor, as a circle of
      radius 1, overlaps the ball, the button is down, the cursor grips
      nothing or this ball, and the ball has no contacts. */
  predicate Grips(b: BallState, m: CursorState)
  {
    && IsOverlapping(GetDistance(b.x, b.y, b.r, m.x, m.y, 1.0))
    && m.btnPressed
    && (m.ball == -1 || m.ball == b.id)
    && |b.contacts| == 0
  }

  /** handleStroke(mouse) with the registry snapshot `s`. */
  function Stroke(b: BallState, m: CursorState, s: seq<BallState>, W: real, H: real): (res: (BallState, CursorState))
    ensures res.0.id == b.id && res.0.r == b.r && res.0.contacts == b.contacts
  {
    if Grips(b, m) then
      var m1 := m.(ball := b.id);
      var b1 := SetXState(b, m1.x, s, W);
      var b2 := SetYState(b1, m1.y, s, H);
      (b2.(vx := m1.vx, vy := m1.vy), m1)
    else (b, m)
  }

  /** handleStroke changes something only under the grip condition; then
      the cursor grips this ball, the ball takes the cursor's velocity
      and its position is the cursor's, clamped to the table. */
  lemma StrokeRule(b: BallState, m: CursorState, s: seq<BallState>, W: real, H: real)
    ensures var res := Stroke(b, m, s, W, H);
      && (!Grips(b, m) ==> res == (b, m))
      && (Grips(b, m) ==>
            && res.1 == m.(ball := b.id)
            && res.0 == b.(x := Clamp(m.x, b.r, W - b.r), y := Clamp(m.y, b.r, H - b.r), vx := m.vx, vy := m.vy))
  {
  }

  /** The grip test in squares: the centre distance is below r + 1. */
  lemma GripsInSquares(b: BallState, m: CursorState)
    requires b.r >= 0.0
    ensures Grips(b, m) <==>
      && Sq(b.x - m.x) + Sq(b.y - m.y) < Sq(b.r + 1.0)
      && m.btnPressed && (m.ball == -1 || m.ball == b.id) && b.contacts == []
  {
  }

  // ---------------------------------------------------------------------
  // set: the search for a clear centre

  /** The discs of the balls placed so far. */
  function Discs(s: seq<BallState>): (ds: seq<Disc>)
    ensures |ds| == |s| && forall i :: 0 <= i < |s| ==> ds[i] == DiscOf(s[i])
  {
    seq(|s|, i requires 0 <= i < |s| => DiscOf(s[i]))
  }

  /** A disc of radius r at (x, y) overlaps one of ds. */
  predicate OverlapsAny(ds: seq<Disc>, x: real, y: real, r: real)
  {
    exists j :: 0 <= j < |ds| && IsOverlapping(GetDistance(ds[j].x, ds[j].y, ds[j].r, x, y, r))
  }

  /** The centre that one pass of set's do-while draws from draws k and
      k + 1: inside the table, 5 units clear of every cushion. */
  function Attempt(r: int, W: int, H: int, draws: seq<real>, k: nat): (p: (int, int))
    requires AreDraws(draws) && k + 2 <= |draws|
    ensures Min(r + 5, W - r - 5) <= p.0 <= Max(r + 5, W - r - 5)
    ensures Min(r + 5, H - r - 5) <= p.1 <= Max(r + 5, H - r - 5)
  {
    GenerateCoordinates(r + 5, W - r - 5, r + 5, H - r - 5, draws[k], draws[k + 1])
  }

  /** The attempt at draw k lands on a ball already placed. */
  predicate Rejected(ds: seq<Disc>, r: int, W: int, H: int, draws: seq<real>, k: nat)
    requires AreDraws(draws) && k + 2 <= |draws|
  {
    var p := Attempt(r, W, H, draws, k);
    OverlapsAny(ds, p.0 as real, p.1 as real, r as real)
  }

  /** Every attempt from draw `from` on is rejected: the do-while of the
      source never ends. */
  ghost predicate AllRejected(ds: seq<Disc>, r: int, W: int, H: int, draws: seq<real>, from: nat)
    requires AreDraws(draws)
    decreases |draws| - from
  {
    from + 2 <= |draws| ==> Rejected(ds, r, W, H, draws, from) && AllRejected(ds, r, W, H, draws, from + 2)
  }

  /** Every attempt from draw `from` up to draw `to` is rejected. */
  ghost predicate RejectedUntil(ds: seq<Disc>, r: int, W: int, H: int, draws: seq<real>, from: nat, to: nat)
    requires AreDraws(draws)
    decreases (to as int) - from
  {
    || from == to
    || (&& from + 2 <= to && from + 2 <= |draws|
        && Rejected(ds, r, W, H, draws, from) && RejectedUntil(ds, r, W, H, draws, from + 2, to))
  }

  /** The centre set's do-while settles on, with the next unused draw; None
      when the draws run out, standing for a search that never ends. */
  function FirstClear(ds: seq<Disc>, r: int, W: int, H: int, draws: seq<real>, from: nat): (res: Option<(int, int, nat)>)
    requires AreDraws(draws)
    ensures res.Some? ==> from + 2 <= res.value.2 <= |draws|
    decreases |draws| - from
  {
    if from + 2 > |draws| then None
    else if Rejected(ds, r, W, H, draws, from) then FirstClear(ds, r, W, H, draws, from + 2)
    else
      var p := Attempt(r, W, H, draws, from);
      var n: nat := from + 2;
      Some((p.0, p.1, n))
  }

  /** The search fails exactly when every attempt it could make is
      rejected. */
  lemma {:induction false} FirstClearNone(ds: seq<Disc>, r: int, W: int, H: int, draws: seq<real>, from: nat)
    requires AreDraws(draws)
    ensures FirstClear(ds, r, W, H, draws, from).None? <==> AllRejected(ds, r, W, H, draws, from)
    decreases |draws| - from
  {
    if from + 2 <= |draws| {
      FirstClearNone(ds, r, W, H, draws, from + 2);
    }
  }

  /** A centre found is the first attempt that is not rejected. */
  lemma {:induction false} FirstClearFirst(ds: seq<Disc>, r: int, W: int, H: int, draws: seq<real>, from: nat,
                                           x: int, y: int, n: nat)
    requires AreDraws(draws) && FirstClear(ds, r, W, H, draws, from) == Some((x, y, n))
    ensures from + 2 <= n <= |draws|
    ensures RejectedUntil(ds, r, W, H, draws, from, n - 2)
    ensures !Rejected(ds, r, W, H, draws, n - 2)
    ensures (x, y) == Attempt(r, W, H, draws, n - 2)
    decreases |draws| - from
  {
    if Rejected(ds, r, W, H, draws, from) {
      assert FirstClear(ds, r, W, H, draws, from) == FirstClear(ds, r, W, H, draws, from + 2);
      FirstClearFirst(ds, r, W, H, draws, from + 2, x, y, n);
    } else {
      var p := Attempt(r, W, H, draws, from);
      var m: nat := from + 2;
      assert FirstClear(ds, r, W, H, draws, from) == Some((p.0, p.1, m));
    }
  }

  /** A ball centred on an attempt that is not rejected overlaps none of
      the balls s. */
  lemma ClearOfAll(s: seq<BallState>, b: BallState, r: int, W: int, H: int, draws: seq<real>, k: nat, x: int, y: int)
    requires AreDraws(draws) && k + 2 <= |draws| && !Rejected(Discs(s), r, W, H, draws, k)
    requires (x, y) == Attempt(r, W, H, draws, k)
    requires b.x == x as real && b.y == y as real && b.r == r as real
    ensures forall j :: 0 <= j < |s| ==> !IsOverlapping(GapOf(s[j], b))
  {
    forall j | 0 <= j < |s| ensures !IsOverlapping(GapOf(s[j], b)) {
      assert Discs(s)[j] == DiscOf(s[j]);
    }
  }
}
