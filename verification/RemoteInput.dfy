/** The pointer path into the interface (sim/remote_input.cpp): the event queue is drained into a
    FIFO of transitions, and the interface reads those in bounded bursts. */
module RemoteInput {
  import opened Wrappers
  import opened InputModel
  import opened Input

  const MAX_TRANSITIONS_PER_READ: nat := 16

  datatype Transition = Transition(x: int, y: int, pressed: bool)

  const RELEASED := Transition(0, 0, false)

  // ---------------------------------------------------------------------------
  // What the pointer events of a history say, one transition each.

  function Last(ts: seq<Transition>): Transition {
    if ts == [] then RELEASED else ts[|ts| - 1]
  }

  /** A press is pressed, a release is released, and a move carries on whatever was said before it. */
  function Translate(events: seq<InputEvent>): (ts: seq<Transition>)
    ensures |ts| <= |events|
  {
    if events == [] then []
    else
      var before, e := Translate(events[..|events| - 1]), events[|events| - 1];
      if e.kind.IsButton() then before else before + [Says(e, Last(before).pressed)]
  }

  function Says(e: InputEvent, pressedBefore: bool): Transition {
    Transition(e.x, e.y, if e.kind == PointerMove then pressedBefore else e.kind == PointerDown)
  }

  lemma TranslateNext(events: seq<InputEvent>, taken: nat)
    requires taken < |events|
    ensures Translate(events[..taken + 1]) ==
            if events[taken].kind.IsButton() then Translate(events[..taken])
            else Translate(events[..taken]) + [Says(events[taken], Last(Translate(events[..taken])).pressed)]
  {
    assert events[..taken + 1][..taken] == events[..taken];
  }

  /** What further events say, after the transition `last`. */
  function TranslateAfter(last: Transition, events: seq<InputEvent>): seq<Transition> {
    if events == [] then []
    else
      var before, e := TranslateAfter(last, events[..|events| - 1]), events[|events| - 1];
      if e.kind.IsButton() then before else before + [Says(e, Last([last] + before).pressed)]
  }

  lemma {:induction false} TranslateConcat(a: seq<InputEvent>, b: seq<InputEvent>)
    ensures Translate(a + b) == Translate(a) + TranslateAfter(Last(Translate(a)), b)
  {
    if b == [] {
      assert a + b == a;
    } else {
      var c := b[..|b| - 1];
      assert (a + b)[..|a + b| - 1] == a + c;
      TranslateConcat(a, c);
      var said := TranslateAfter(Last(Translate(a)), c);
      assert Last(Translate(a) + said) == Last([Last(Translate(a))] + said);
    }
  }

  /** Whoever has been told everything sees the pointer as the state machine holds it: down when
      it is down, and at the same place. */
  lemma {:induction false} ToldEverything(events: seq<InputEvent>, v: View)
    requires Tells(events, v)
    ensures Last(Translate(events)) == Transition(v.x, v.y, v.pointer.Pressed?)
  {
    if events != [] {
      var before := events[..|events| - 1];
      ToldEverything(before, Replay(before).value);
    }
  }

  class PointerPath {
    const queue: InputQueue
    const transitions: array<Transition>
    var head: nat
    var count: nat
    var readBurst: nat
    var seen: Transition

    /** The transitions still in the FIFO, and those the interface has read. */
    ghost var waiting: seq<Transition>
    ghost var read: seq<Transition>

    /** Nothing is dropped and nothing is reordered: what was read, then what is waiting, is what
        the drained part of the history says.  What is still queued is the rest of it. */
    ghost predicate Valid()
      reads this, transitions, queue, queue.buffer
    {
      && queue.Valid() && InOrder() && read + waiting == Translate(queue.history[..queue.taken])
    }

    ghost predicate InOrder()
      reads this, transitions
    {
      && transitions.Length == RING_CAPACITY && Rings(transitions[..], head, waiting) && count == |waiting|
      && seen == Last(read) && readBurst < MAX_TRANSITIONS_PER_READ
    }

    constructor (source: InputQueue)
      requires source.Valid() && source.history == []
      ensures Valid() && queue == source && read == [] && waiting == [] && readBurst == 0 && fresh(transitions)
    {
      queue := source;
      transitions := new Transition[RING_CAPACITY](_ => RELEASED);
      head, count, readBurst, seen, waiting, read := 0, 0, 0, RELEASED, [], [];
    }

    method PendingPressed() returns (pressed: bool)
      requires InOrder()
      ensures pressed == Last(read + waiting).pressed
    {
      if count == 0 {
        assert read + waiting == read;
        return seen.pressed;
      }
      return transitions[Slot(head, count - 1)].pressed;
    }

    method PushTransition(t: Transition)
      requires InOrder()
      modifies `count, `waiting, transitions
      ensures InOrder() && waiting == if old(count) == RING_CAPACITY then old(waiting) else old(waiting) + [t]
    {
      if count == RING_CAPACITY {
        return;
      }
      RingPush(transitions[..], head, waiting, t);
      transitions[Slot(head, count)] := t;
      count, waiting := count + 1, waiting + [t];
    }

    /** One read by the interface: the next transition if there is one, the last one again if not,
        and whether to come straight back. */
    method ReadPointer() returns (data: Transition, continueReading: bool)
      requires InOrder()
      modifies `head, `count, `readBurst, `seen, `waiting, `read
      ensures InOrder() && data == Last(read)
      ensures read + waiting == old(read + waiting)
      ensures |read| == |old(read)| + if old(waiting) == [] then 0 else 1
      ensures continueReading <==> waiting != [] && old(readBurst) + 1 < MAX_TRANSITIONS_PER_READ
      ensures readBurst == if old(waiting) == [] then old(readBurst)
                           else if continueReading then old(readBurst) + 1 else 0
    {
      continueReading := false;
      if count > 0 {
        RingPop(transitions[..], head, waiting);
        seen := transitions[head];
        read, waiting := read + [waiting[0]], waiting[1..];
        head, count, readBurst := Slot(head, 1), count - 1, readBurst + 1;
        if count == 0 || readBurst >= MAX_TRANSITIONS_PER_READ {
          readBurst := 0;
        } else {
          continueReading := true;
        }
      }
      data := seen;
    }

    /** The interface's own loop around `ReadPointer`: a burst, never longer than the bound. */
    method ReadBurst() returns (data: Transition)
      requires InOrder() && readBurst == 0
      modifies `head, `count, `readBurst, `seen, `waiting, `read
      ensures InOrder() && readBurst == 0 && read + waiting == old(read + waiting)
      ensures |read| - |old(read)| ==
              if |old(waiting)| < MAX_TRANSITIONS_PER_READ then |old(waiting)| else MAX_TRANSITIONS_PER_READ
    {
      var more;
      data, more := ReadPointer();
      while more
        invariant InOrder() && read + waiting == old(read + waiting)
        invariant |old(waiting)| == |waiting| + |read| - |old(read)|
        invariant more ==> waiting != [] && readBurst == |read| - |old(read)|
        invariant !more ==> readBurst == 0
        invariant !more ==> waiting == [] || |read| - |old(read)| == MAX_TRANSITIONS_PER_READ
        invariant |read| - |old(read)| <= MAX_TRANSITIONS_PER_READ
        decreases |waiting|
      {
        data, more := ReadPointer();
      }
    }

    /** Drains the queue until it is empty or its next event needs a slot the FIFO does not have.
        An event that cannot be taken stays queued: delayed, never dropped, never overtaken. */
    method Pump()
      requires Valid()
      modifies `count, `waiting, transitions, queue
      ensures Valid() && read == old(read) && queue.history == old(queue.history) && old(queue.taken) <= queue.taken
      ensures queue.taken == |queue.history|
              || (!queue.history[queue.taken].kind.IsButton() && count == RING_CAPACITY)
    {
      while true
        invariant Valid() && read == old(read) && queue.history == old(queue.history) && old(queue.taken) <= queue.taken
        decreases |queue.history| - queue.taken
      {
        var next := queue.Peek();
        if next == None || (!next.value.kind.IsButton() && count == RING_CAPACITY) {
          return;
        }
        TakeOne(next.value);
      }
    }

    method TakeOne(next: InputEvent)
      requires Valid() && queue.taken < |queue.history| && next == queue.history[queue.taken]
      requires next.kind.IsButton() || count < RING_CAPACITY
      modifies `count, `waiting, transitions, queue
      ensures Valid() && read == old(read) && queue.history == old(queue.history) && queue.taken == old(queue.taken) + 1
    {
      TranslateNext(queue.history, queue.taken);
      var event := queue.Pop();
      match event.value.kind
      case PointerDown => PushTransition(Transition(event.value.x, event.value.y, true));
      case PointerMove =>
        var pressed := PendingPressed();
        PushTransition(Transition(event.value.x, event.value.y, pressed));
      case PointerUp => PushTransition(Transition(event.value.x, event.value.y, false));
      case ButtonDown | ButtonUp =>
    }

    /** At every step: what was read, what is waiting, and what the queued events will say are
        together the translation of every event ever pushed. */
    lemma NothingDropped()
      requires Valid()
      ensures read + waiting + TranslateAfter(Last(read + waiting), queue.history[queue.taken..]) ==
              Translate(queue.history)
    {
      assert queue.history == queue.history[..queue.taken] + queue.history[queue.taken..];
      TranslateConcat(queue.history[..queue.taken], queue.history[queue.taken..]);
    }

    /** Once both buffers are empty the interface sees the pointer exactly as it is held. */
    lemma Settled(v: View)
      requires Valid() && Tells(queue.history, v)
      requires waiting == [] && queue.taken == |queue.history|
      ensures seen == Transition(v.x, v.y, v.pointer.Pressed?)
    {
      assert queue.history[..queue.taken] == queue.history;
      ToldEverything(queue.history, v);
      assert read + waiting == read;
    }
  }
}
