/** The input layer of core/src/input.cpp: a ring queue and the machine of what is held. */
module Input {
  import opened Wrappers
  import opened InputModel

  class InputQueue {
    const buffer: array<InputEvent>
    var head: nat
    var count: nat
    var pushed: nat
    var popped: nat
    var dropped: nat
    var flushed: nat

    /** Every event ever accepted, and how many of them have left again. */
    ghost var history: seq<InputEvent>
    ghost var taken: nat

    ghost predicate Valid()
      reads this, buffer
    {
      && taken <= |history| && count == |history| - taken
      && buffer.Length == RING_CAPACITY && Rings(buffer[..], head, history[taken..])
      && pushed == (popped + flushed + count) % WRAP_32
    }

    constructor ()
      ensures Valid() && history == [] && taken == 0 && fresh(buffer)
    {
      buffer := new InputEvent[RING_CAPACITY](_ => InputEvent(PointerUp, Physical, 0, 0, 0, 0, 0));
      head, count, pushed, popped, dropped, flushed := 0, 0, 0, 0, 0, 0;
      history, taken := [], 0;
    }

    method Push(e: InputEvent) returns (ok: bool)
      requires Valid()
      modifies this, buffer
      ensures Valid() && taken == old(taken) && ok == (old(count) < RING_CAPACITY)
      ensures history == if ok then old(history) + [e] else old(history)
      ensures dropped == if ok then old(dropped) else (old(dropped) + 1) % WRAP_32
    {
      if count == RING_CAPACITY {
        dropped := (dropped + 1) % WRAP_32;
        return false;
      }
      RingPush(buffer[..], head, history[taken..], e);
      assert (history + [e])[taken..] == history[taken..] + [e];
      buffer[Slot(head, count)] := e;
      count, pushed, history := count + 1, (pushed + 1) % WRAP_32, history + [e];
      return true;
    }

    method Pop() returns (out: Option<InputEvent>)
      requires Valid()
      modifies this
      ensures Valid() && history == old(history)
      ensures old(count) == 0 ==> out == None && taken == old(taken)
      ensures old(count) > 0 ==> out == Some(history[old(taken)]) && taken == old(taken) + 1
    {
      if count == 0 {
        return None;
      }
      RingPop(buffer[..], head, history[taken..]);
      assert history[taken..][1..] == history[taken + 1..];
      out := Some(buffer[head]);
      head, count, popped, taken := Slot(head, 1), count - 1, (popped + 1) % WRAP_32, taken + 1;
    }

    method Peek() returns (next: Option<InputEvent>)
      requires Valid()
      ensures next == if taken < |history| then Some(history[taken]) else None
    {
      if count == 0 {
        return None;
      }
      RingPop(buffer[..], head, history[taken..]);
      return Some(buffer[head]);
    }

    /** A deliberate discard, as visible in the statistics as a pop. */
    method Clear()
      requires Valid()
      modifies this
      ensures Valid() && history == old(history) && taken == |history|
      ensures flushed == (old(flushed) + old(count)) % WRAP_32
    {
      flushed := (flushed + count) % WRAP_32;
      head, count, taken := 0, 0, |history|;
    }
  }

  class InputState {
    var buttonHeld: seq<bool>
    var buttonOrigin: seq<Origin>
    var pointerDown: bool
    var pointerX: int
    var pointerY: int
    var pointerTouchId: nat
    var pointerOrigin: Origin

    ghost predicate Valid()
      reads this
    {
      |buttonHeld| == |buttonOrigin| == MAX_BUTTONS
    }

    /** What the fields mean.  The origin of a button that is not held means nothing. */
    ghost function Seen(): (v: View)
      requires Valid()
      reads this
      ensures WellFormed(v)
    {
      View([KeyAt(0), KeyAt(1), KeyAt(2)], if pointerDown then Pressed(pointerOrigin, pointerTouchId) else Lifted,
           pointerX, pointerY)
    }

    ghost function KeyAt(i: nat): Key
      requires Valid() && i < MAX_BUTTONS
      reads this
    {
      if buttonHeld[i] then HeldBy(buttonOrigin[i]) else Free
    }

    constructor ()
      ensures Valid() && Seen() == INITIAL
    {
      buttonHeld, buttonOrigin := [false, false, false], [Physical, Physical, Physical];
      pointerDown, pointerX, pointerY, pointerTouchId, pointerOrigin := false, 0, 0, 0, Physical;
    }

    /** An event is applied exactly when it is possible and the board has the button. */
    method Apply(e: InputEvent, buttonCount: nat) returns (ok: bool)
      requires Valid()
      modifies this
      ensures Valid()
      ensures ok == (Accepts(old(Seen()), e) && (e.kind.IsButton() ==> e.button < buttonCount))
      ensures Seen() == if ok then Next(old(Seen()), e) else old(Seen())
    {
      match e.kind
      case ButtonDown =>
        if e.button >= buttonCount || e.button >= MAX_BUTTONS || buttonHeld[e.button] {
          return false;
        }
        buttonHeld := buttonHeld[e.button := true];
        buttonOrigin := buttonOrigin[e.button := e.origin];
        return true;
      case ButtonUp =>
        if e.button >= buttonCount || e.button >= MAX_BUTTONS || !buttonHeld[e.button]
          || buttonOrigin[e.button] != e.origin {
          return false;
        }
        buttonHeld := buttonHeld[e.button := false];
        return true;
      case PointerDown =>
        if e.touchId >= MAX_TOUCH_POINTS || pointerDown {
          return false;
        }
        pointerDown, pointerTouchId, pointerX, pointerY, pointerOrigin := true, e.touchId, e.x, e.y, e.origin;
        return true;
      case PointerMove =>
        if !pointerDown || e.touchId != pointerTouchId {
          return false;
        }
        pointerX, pointerY := e.x, e.y;
        return true;
      case PointerUp =>
        if !pointerDown || e.touchId != pointerTouchId {
          return false;
        }
        pointerDown, pointerX, pointerY := false, e.x, e.y;
        return true;
    }

    /** One button of `ReleaseAll`.  Cleared only if the interface was told. */
    method ReleaseButton(i: nat, origin: Origin, atMs: nat, queue: InputQueue) returns (told: bool)
      requires Valid() && queue.Valid() && i < MAX_BUTTONS
      modifies this, queue, queue.buffer
      ensures Valid() && queue.Valid() && queue.taken == old(queue.taken)
      ensures told == (old(Seen()).buttons[i] == HeldBy(origin) && old(queue.count) < RING_CAPACITY)
      ensures told ==> queue.history == old(queue.history) + [ButtonRelease(i, origin, atMs)]
                       && Seen() == Next(old(Seen()), ButtonRelease(i, origin, atMs))
      ensures !told ==> queue.history == old(queue.history) && Seen() == old(Seen())
    {
      told := false;
      if buttonHeld[i] && buttonOrigin[i] == origin {
        told := queue.Push(ButtonRelease(i, origin, atMs));
        if told {
          buttonHeld := buttonHeld[i := false];
        }
      }
    }

    method ReleasePointer(origin: Origin, atMs: nat, queue: InputQueue) returns (told: bool)
      requires Valid() && queue.Valid()
      modifies this, queue, queue.buffer
      ensures Valid() && queue.Valid() && queue.taken == old(queue.taken)
      ensures told == (old(Seen()).pointer.Pressed? && old(Seen()).pointer.holder == origin
                       && old(queue.count) < RING_CAPACITY)
      ensures told ==> queue.history == old(queue.history) + [PointerRelease(old(Seen()), origin, atMs)]
                       && Seen() == Next(old(Seen()), PointerRelease(old(Seen()), origin, atMs))
      ensures !told ==> queue.history == old(queue.history) && Seen() == old(Seen())
    {
      told := false;
      if pointerDown && pointerOrigin == origin {
        told := queue.Push(InputEvent(PointerUp, origin, 0, pointerX, pointerY, pointerTouchId, atMs));
        if told {
          pointerDown := false;
        }
      }
    }

    /** Everything `origin` holds is let go, except what a full queue could not be told. */
    method ReleaseAll(origin: Origin, atMs: nat, queue: InputQueue) returns (written: nat)
      requires Valid() && queue.Valid()
      modifies this, queue, queue.buffer
      ensures Valid() && queue.Valid() && queue.taken == old(queue.taken)
      ensures Released(origin, old(Seen()), Seen(), old(queue.history), queue.history)
      ensures written == |queue.history| - |old(queue.history)|
      ensures HeldCount(Seen(), origin) > 0 ==> queue.count == RING_CAPACITY
    {
      written := 0;
      ghost var before, h0 := Seen(), queue.history;
      for i := 0 to MAX_BUTTONS
        invariant Valid() && queue.Valid() && queue.taken == old(queue.taken)
        invariant Released(origin, before, Seen(), h0, queue.history)
        invariant written == |queue.history| - |h0|
        invariant queue.count < RING_CAPACITY ==> forall k :: 0 <= k < i ==> Seen().buttons[k] != HeldBy(origin)
      {
        ghost var mid, h := Seen(), queue.history;
        var told := ReleaseButton(i, origin, atMs, queue);
        if told {
          ReleasedButton(origin, before, mid, h0, h, i, atMs);
          written := written + 1;
        }
      }
      ghost var mid, h := Seen(), queue.history;
      var told := ReleasePointer(origin, atMs, queue);
      if told {
        ReleasedPointer(origin, before, mid, h0, h, atMs);
        written := written + 1;
      }
    }

    method CountHeld(origin: Origin) returns (held: nat)
      requires Valid()
      ensures held == HeldCount(Seen(), origin)
    {
      held := 0;
      for i := 0 to MAX_BUTTONS
        invariant held == (if i > 0 then Holds(Seen(), 0, origin) else 0)
                  + (if i > 1 then Holds(Seen(), 1, origin) else 0)
                          + (if i > 2 then Holds(Seen(), 2, origin) else 0)
      {
        if buttonHeld[i] && buttonOrigin[i] == origin {
          held := held + 1;
        }
      }
      if pointerDown && pointerOrigin == origin {
        held := held + 1;
      }
    }
  }
}
