/** Input events and what they mean, as values (core/include/attadipa/core/input.h:51-108 and the
    state machine of core/src/input.cpp).  `Replay` is the reference: what somebody who saw every
    event would believe is held. */
module InputModel {
  import opened Wrappers

  const MAX_BUTTONS: nat := 3
  const MAX_TOUCH_POINTS: nat := 1
  const WRAP_32: nat := 0x1_0000_0000

  datatype Origin = Physical | Remote

  datatype EventType = ButtonDown | ButtonUp | PointerDown | PointerMove | PointerUp {
    predicate IsButton() {
      this.ButtonDown? || this.ButtonUp?
    }
  }

  datatype InputEvent = InputEvent(kind: EventType, origin: Origin, button: nat, x: int, y: int, touchId: nat,
                                   atMs: nat)

  /** Who holds a button, if anybody. */
  datatype Key = Free | HeldBy(origin: Origin)

  datatype Pointer = Lifted | Pressed(holder: Origin, touchId: nat)

  /** Everything the interface can be said to have been told: who holds what, and where the
      pointer was last seen. */
  datatype View = View(buttons: seq<Key>, pointer: Pointer, x: int, y: int)

  const INITIAL := View([Free, Free, Free], Lifted, 0, 0)

  ghost predicate WellFormed(v: View) {
    |v.buttons| == MAX_BUTTONS
  }

  /** Whether an event is possible: only what is free can go down, only what its own origin holds
      can come up, and only the finger that is down can move or lift. */
  predicate Accepts(v: View, e: InputEvent)
    requires WellFormed(v)
  {
    match e.kind
    case ButtonDown => e.button < MAX_BUTTONS && v.buttons[e.button] == Free
    case ButtonUp => e.button < MAX_BUTTONS && v.buttons[e.button] == HeldBy(e.origin)
    case PointerDown => e.touchId < MAX_TOUCH_POINTS && v.pointer == Lifted
    case PointerMove | PointerUp => v.pointer.Pressed? && v.pointer.touchId == e.touchId
  }

  function Next(v: View, e: InputEvent): (after: View)
    requires WellFormed(v) && Accepts(v, e)
    ensures WellFormed(after)
  {
    match e.kind
    case ButtonDown => v.(buttons := v.buttons[e.button := HeldBy(e.origin)])
    case ButtonUp => v.(buttons := v.buttons[e.button := Free])
    case PointerDown => v.(pointer := Pressed(e.origin, e.touchId), x := e.x, y := e.y)
    case PointerMove => v.(x := e.x, y := e.y)
    case PointerUp => v.(pointer := Lifted, x := e.x, y := e.y)
  }

  /** What replaying a history from the start leaves held, if every event in it is possible. */
  ghost function Replay(events: seq<InputEvent>): (v: Option<View>)
    ensures v.Some? ==> WellFormed(v.value)
  {
    if events == [] then Some(INITIAL)
    else
      var before, e := Replay(events[..|events| - 1]), events[|events| - 1];
      if before.Some? && Accepts(before.value, e) then Some(Next(before.value, e)) else None
  }

  /** The history and the view agree. */
  ghost predicate Tells(events: seq<InputEvent>, v: View) {
    Replay(events) == Some(v)
  }

  lemma TellsNext(events: seq<InputEvent>, v: View, e: InputEvent)
    requires Tells(events, v) && Accepts(v, e)
    ensures Tells(events + [e], Next(v, e))
  {
    assert (events + [e])[..|events + [e]| - 1] == events;
  }

  /** The event that takes back an accepted one: the opposite type, at the coordinates from before. */
  function Undo(v: View, e: InputEvent): InputEvent {
    var back := match e.kind
      case ButtonDown => ButtonUp
      case ButtonUp => ButtonDown
      case PointerDown => PointerUp
      case PointerUp => PointerDown
      case PointerMove => PointerMove;
    e.(kind := back, x := v.x, y := v.y)
  }

  /** A refused event leaves no trace: rolling an accepted event back restores who held what, and
      where the pointer was last seen.  A lift is undone as a press by the event's own origin, so
      it restores the holder exactly when the two are the same. */
  lemma UndoRestores(v: View, e: InputEvent)
    requires WellFormed(v) && Accepts(v, e)
    ensures Accepts(Next(v, e), Undo(v, e)) <==> (e.kind == PointerUp ==> e.touchId < MAX_TOUCH_POINTS)
    ensures Accepts(Next(v, e), Undo(v, e)) ==>
              (Next(Next(v, e), Undo(v, e)) == v <==> (e.kind == PointerUp ==> v.pointer.holder == e.origin))
  {
    if e.kind.IsButton() {
      assert v.buttons[e.button := v.buttons[e.button]] == v.buttons;
    }
  }

  /** What a replayed history can hold: a finger that is down is one the stack admits. */
  lemma {:induction false} HeldFingerIsAdmitted(events: seq<InputEvent>, v: View)
    requires Tells(events, v) && v.pointer.Pressed?
    ensures v.pointer.touchId < MAX_TOUCH_POINTS
  {
    var before, e := Replay(events[..|events| - 1]).value, events[|events| - 1];
    if e.kind != PointerDown {
      HeldFingerIsAdmitted(events[..|events| - 1], before);
    }
  }

  // ---------------------------------------------------------------------------
  // Letting go on somebody's behalf.

  /** How much `origin` holds. */
  function HeldCount(v: View, origin: Origin): nat
    requires WellFormed(v)
  {
    Holds(v, 0, origin) + Holds(v, 1, origin) + Holds(v, 2, origin)
    + if v.pointer.Pressed? && v.pointer.holder == origin then 1 else 0
  }

  function Holds(v: View, i: nat, origin: Origin): nat
    requires WellFormed(v) && i < MAX_BUTTONS
  {
    if v.buttons[i] == HeldBy(origin) then 1 else 0
  }

  function ButtonRelease(i: nat, origin: Origin, atMs: nat): InputEvent {
    InputEvent(ButtonUp, origin, i, 0, 0, 0, atMs)
  }

  /** The pointer is lifted where it was last seen, so that the release lands nowhere new. */
  function PointerRelease(v: View, origin: Origin, atMs: nat): InputEvent
    requires v.pointer.Pressed?
  {
    InputEvent(PointerUp, origin, 0, v.x, v.y, v.pointer.touchId, atMs)
  }

  /** From `before` to `after` some of what `origin` held was let go, each with one release added
      to the history, and nothing else changed: nobody else's hold, and not the coordinates. */
  ghost predicate Released(origin: Origin, before: View, after: View, h0: seq<InputEvent>, h1: seq<InputEvent>)
    requires WellFormed(before) && WellFormed(after)
  {
    && h0 <= h1 && (Tells(h0, before) ==> Tells(h1, after))
    && after.x == before.x && after.y == before.y
    && (after.pointer == before.pointer
        || (before.pointer.Pressed? && before.pointer.holder == origin && after.pointer == Lifted))
    && (forall i :: 0 <= i < MAX_BUTTONS ==>
          after.buttons[i] == before.buttons[i] || (before.buttons[i] == HeldBy(origin) && after.buttons[i] == Free))
    && |h1| - |h0| == HeldCount(before, origin) - HeldCount(after, origin)
  }

  lemma ReleasedButton(origin: Origin, before: View, mid: View, h0: seq<InputEvent>, h: seq<InputEvent>, i: nat,
                       atMs: nat)
    requires WellFormed(before) && WellFormed(mid) && Released(origin, before, mid, h0, h)
    requires i < MAX_BUTTONS && mid.buttons[i] == HeldBy(origin)
    ensures Accepts(mid, ButtonRelease(i, origin, atMs))
    ensures Released(origin, before, Next(mid, ButtonRelease(i, origin, atMs)), h0,
                     h + [ButtonRelease(i, origin, atMs)])
  {
    if Tells(h, mid) {
      TellsNext(h, mid, ButtonRelease(i, origin, atMs));
    }
  }

  lemma ReleasedPointer(origin: Origin, before: View, mid: View, h0: seq<InputEvent>, h: seq<InputEvent>, atMs: nat)
    requires WellFormed(before) && WellFormed(mid) && Released(origin, before, mid, h0, h)
    requires mid.pointer.Pressed? && mid.pointer.holder == origin
    ensures Accepts(mid, PointerRelease(mid, origin, atMs))
    ensures Released(origin, before, Next(mid, PointerRelease(mid, origin, atMs)), h0,
                     h + [PointerRelease(mid, origin, atMs)])
  {
    if Tells(h, mid) {
      TellsNext(h, mid, PointerRelease(mid, origin, atMs));
    }
  }

  // ---------------------------------------------------------------------------
  // A ring of fixed capacity.

  const RING_CAPACITY: nat := 64

  function Slot(head: nat, i: nat): (at: nat)
    ensures at < RING_CAPACITY
  {
    (head + i) % RING_CAPACITY
  }

  /** The ring that starts at `head` holds exactly `contents`, in order. */
  ghost predicate Rings<T>(buffer: seq<T>, head: nat, contents: seq<T>) {
    && |buffer| == RING_CAPACITY && head < RING_CAPACITY && |contents| <= RING_CAPACITY
    && forall i :: 0 <= i < |contents| ==> buffer[Slot(head, i)] == contents[i]
  }

  lemma SlotsDiffer(head: nat, i: nat, j: nat)
    requires i < j < RING_CAPACITY
    ensures Slot(head, i) != Slot(head, j)
  {
  }

  lemma RingPush<T>(buffer: seq<T>, head: nat, contents: seq<T>, e: T)
    requires Rings(buffer, head, contents) && |contents| < RING_CAPACITY
    ensures Rings(buffer[Slot(head, |contents|) := e], head, contents + [e])
  {
    forall i | 0 <= i < |contents| ensures Slot(head, i) != Slot(head, |contents|) {
      SlotsDiffer(head, i, |contents|);
    }
  }

  lemma RingPop<T>(buffer: seq<T>, head: nat, contents: seq<T>)
    requires Rings(buffer, head, contents) && contents != []
    ensures buffer[head] == contents[0] && Rings(buffer, Slot(head, 1), contents[1..])
  {
    assert Slot(head, 0) == head;
    forall i | 0 <= i < |contents| - 1 ensures Slot(Slot(head, 1), i) == Slot(head, i + 1) {
    }
  }
}
