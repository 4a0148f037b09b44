/** The cursor state of src/objects/mouse.ts.

    The DOM listeners of `track` become methods that take the event's
    numbers (client position, canvas offset, movement deltas, button code).
    Each 200 ms `setTimeout` that zeroes vx or vy becomes an explicit
    expiry method; a ghost counter records how many of those timers have
    been scheduled and have not fired yet. The timers are never cancelled,
    so a pending expiry also zeroes a velocity written by a later sample. */
module Cursor {

  /** The fields of a Mouse, as a value. */
  datatype CursorState = CursorState(x: real, y: real, vx: real, vy: real, btnPressed: bool, ball: int)

  class Mouse {
    var x: real
    var y: real
    var vx: real
    var vy: real
    var btnPressed: bool
    /** id of the gripped ball, -1 for none */
    var ball: int

    /** vx / vy reset timers scheduled and not fired yet */
    ghost var pendingVx: nat
    ghost var pendingVy: nat

    function State(): CursorState
      reads this
    {
      CursorState(x, y, vx, vy, btnPressed, ball)
    }

    constructor ()
      ensures State() == CursorState(0.0, 0.0, 0.0, 0.0, false, -1)
      ensures pendingVx == 0 && pendingVy == 0
    {
      x, y, vx, vy := 0.0, 0.0, 0.0, 0.0;
      btnPressed := false;
      ball := -1;
      pendingVx, pendingVy := 0, 0;
    }

    /** setVx: store the sample and schedule its reset. */
    method SetVx(v: real)
      modifies this
      ensures State() == old(State()).(vx := v)
      ensures pendingVx == old(pendingVx) + 1 && pendingVy == old(pendingVy)
    {
      vx := v;
      pendingVx := pendingVx + 1;
    }

    /** setVy: store the sample and schedule its reset. */
    method SetVy(v: real)
      modifies this
      ensures State() == old(State()).(vy := v)
      ensures pendingVy == old(pendingVy) + 1 && pendingVx == old(pendingVx)
    {
      vy := v;
      pendingVy := pendingVy + 1;
    }

    /** One scheduled vx reset fires. */
    method ExpireVx()
      requires pendingVx > 0
      modifies this
      ensures State() == old(State()).(vx := 0.0)
      ensures pendingVx == old(pendingVx) - 1 && pendingVy == old(pendingVy)
    {
      vx := 0.0;
      pendingVx := pendingVx - 1;
    }

    /** One scheduled vy reset fires. */
    method ExpireVy()
      requires pendingVy > 0
      modifies this
      ensures State() == old(State()).(vy := 0.0)
      ensures pendingVy == old(pendingVy) - 1 && pendingVx == old(pendingVx)
    {
      vy := 0.0;
      pendingVy := pendingVy - 1;
    }

    /** mousemoveHandler: position relative to the canvas, raw deltas as
        the velocity estimate. */
    method OnMove(clientX: real, clientY: real, left: real, top: real, movementX: real, movementY: real)
      modifies this
      ensures State() == old(State()).(x := clientX - left, y := clientY - top, vx := movementX, vy := movementY)
      ensures pendingVx == old(pendingVx) + 1 && pendingVy == old(pendingVy) + 1
    {
      x := clientX - left;
      y := clientY - top;
      SetVx(movementX);
      SetVy(movementY);
    }

    /** mouseleaveHandler: release the button and the grip. */
    method OnLeave()
      modifies this
      ensures State() == old(State()).(btnPressed := false, ball := -1)
      ensures pendingVx == old(pendingVx) && pendingVy == old(pendingVy)
    {
      btnPressed := false;
      ball := -1;
    }

    /** mousedownHandler: only the main button (0) counts; the grip is
        left as it is. */
    method OnDown(button: int)
      modifies this
      ensures State() == if button == 0 then old(State()).(btnPressed := true) else old(State())
      ensures pendingVx == old(pendingVx) && pendingVy == old(pendingVy)
    {
      if button == 0 {
        btnPressed := true;
      }
    }

    /** mouseupHandler: releasing the main button releases the grip;
        other buttons change nothing. */
    method OnUp(button: int)
      modifies this
      ensures State() == if button == 0 then old(State()).(btnPressed := false, ball := -1) else old(State())
      ensures pendingVx == old(pendingVx) && pendingVy == old(pendingVy)
    {
      if button == 0 {
        btnPressed := false;
        ball := -1;
      }
    }
  }

  /** After a move sample and one expiry of each of its timers the
      velocity estimate is back at zero while the position keeps the
      sample: the observable effect of the 200 ms decay. */
  method MoveThenDecay(m: Mouse, clientX: real, clientY: real, left: real, top: real, movementX: real, movementY: real)
    modifies m
    ensures m.State() == old(m.State()).(x := clientX - left, y := clientY - top, vx := 0.0, vy := 0.0)
  {
    m.OnMove(clientX, clientY, left, top, movementX, movementY);
    m.ExpireVx();
    m.ExpireVy();
  }

  /** A timer scheduled by an earlier sample zeroes a later one: mouse.ts
      never cancels its timers. */
  method StaleTimerZeroesNewSample(m: Mouse, v1: real, v2: real)
    modifies m
    ensures m.vx == 0.0 && m.pendingVx == old(m.pendingVx) + 1
  {
    m.SetVx(v1);
    m.SetVx(v2);
    m.ExpireVx();
  }
}
