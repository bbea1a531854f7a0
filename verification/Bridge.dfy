/** The device end of the debug channel (debug/src/bridge.cpp): remote input with its rollback and
    its expiry, the rate window, and the chunked screen transfer. */
module DebugBridge {
  import opened Wrappers
  import opened Checksums
  import opened InputModel
  import opened Input
  import opened BridgeModel
  import opened BridgeRequests
  import RateWindow

  class Bridge {
    const queue: InputQueue
    const state: InputState
    const frame: array<byte>
    const board: Board
    const limits: Limits
    var transfer: Transfer
    var buttonDownAt: seq<nat>
    var pointerDownAt: nat
    var rateWindowStart: nat
    var rateWindowCount: nat
    var nextFrameId: nat

    /** Everything the host side of the channel saw. */
    ghost var log: seq<Sight>

    /** When the rate window was asked, since the start. */
    ghost var asked: seq<nat>

    /** Replaying everything ever queued gives exactly what the state machine holds. */
    ghost predicate InputsAgree()
      reads `buttonDownAt, queue, queue.buffer, state
    {
      && queue.Valid() && state.Valid() && board.Valid() && |buttonDownAt| == MAX_BUTTONS
      && Tells(queue.history, state.Seen())
    }

    /** A strict host has understood everything so far. */
    ghost predicate ScreenAgrees()
      reads `log, `transfer, frame
    {
      frame.Length < WRAP_32 && Streaming(Watched(log), transfer, frame[..])
    }

    /** The rate window is where everything ever asked has put it. */
    ghost predicate RateAgrees()
      reads `rateWindowStart, `rateWindowCount, `asked
    {
      RateWindow.Gate(rateWindowStart, rateWindowCount) == RateWindow.GateAfter(limits.maxEventsPerS, asked)
    }

    function Kept(): Fixed {
      Fixed(board, limits)
    }

    ghost function Now(): Scene
      requires state.Valid()
      reads this, queue, state, frame
    {
      Scene(queue.history, queue.taken, state.Seen(), buttonDownAt, pointerDownAt, asked, transfer, frame[..],
            nextFrameId)
    }

    ghost predicate Valid()
      reads this, queue, queue.buffer, state, frame
    {
      InputsAgree() && ScreenAgrees() && RateAgrees()
    }

    constructor (queue: InputQueue, state: InputState, frame: array<byte>, board: Board, limits: Limits)
      requires queue.Valid() && state.Valid() && board.Valid() && Tells(queue.history, state.Seen())
      requires frame.Length < WRAP_32
      ensures Valid() && log == [] && this.queue == queue && this.state == state && this.frame == frame
      ensures Kept() == Fixed(board, limits)
      ensures Now() == Scene(queue.history, queue.taken, state.Seen(), [0, 0, 0], 0, [], Transfer(false, 0, 0, 0, 0),
                             frame[..], 1)
    {
      this.queue, this.state, this.frame, this.board, this.limits := queue, state, frame, board, limits;
      transfer := Transfer(false, 0, 0, 0, 0);
      buttonDownAt, pointerDownAt := [0, 0, 0], 0;
      rateWindowStart, rateWindowCount, nextFrameId := 0, 0, 1;
      log, asked := [], [];
    }

    method Emit(m: Message)
      modifies `log
      ensures log == old(log) + [Received(m)]
      ensures Watched(log) == Watch(old(Watched(log)), Received(m))
    {
      WatchedNext(log, Received(m));
      log := log + [Received(m)];
    }

    // -------------------------------------------------------------------------
    // The screen.

    /** The source writes into the caller's buffer, whether or not it then calls that a frame. */
    method Capture(pixels: seq<byte>)
      requires |pixels| <= frame.Length
      modifies frame
      ensures frame[..|pixels|] == pixels
    {
      for i := 0 to |pixels|
        invariant frame[..i] == pixels[..i]
      {
        frame[i] := pixels[i];
      }
    }

    /** A transfer starts only from a whole frame that fits, and never over a running one. */
    method HandleScreen(req: nat, source: Source) returns (reply: Message)
      requires ScreenAgrees() && |source.pixels| <= frame.Length
      modifies `transfer, `nextFrameId, `log, frame
      ensures ScreenAgrees() && log == old(log) + [Received(reply)]
      ensures old(transfer.active) ==>
                reply == Refused(req, Busy) && transfer == old(transfer) && frame[..] == old(frame[..])
      ensures !old(transfer.active) ==>
                (transfer.active <==> source.whole && source.pixels != [] && source.shape.bytes <= frame.Length)
      ensures !old(transfer.active) && transfer.active ==>
                Announced(reply, req, source.pixels) && source.pixels <= frame[..]
                  && transfer.frameId == old(nextFrameId)
      ensures nextFrameId == if transfer.active && !old(transfer.active) then (old(nextFrameId) + 1) % WRAP_32
                             else old(nextFrameId)
      ensures !old(transfer.active) && !transfer.active ==> transfer == old(transfer)
      ensures !transfer.active ==> reply == Refused(req, Diagnosis(source, frame.Length))
    {
      if transfer.active {
        reply := Refused(req, Busy);
      } else if frame.Length == 0 || source.shape.bytes > frame.Length {
        reply := Refused(req, Unsupported);
      } else {
        Capture(source.pixels);
        if source.whole && source.pixels != [] {
          reply := StartTransfer(req, |source.pixels|);
          return;
        }
        reply := Refused(req, match source.why
          case BufferTooSmall => Unsupported
          case RendererFailed => CaptureFailed
          case GeometryMismatch => ScreenGeometry
          case NoFailure | ShapeQuery | NotRendered => NoScreen);
      }
      Emit(reply);
    }

    /** The running transfer is the one just announced, for exactly these pixels. */
    ghost predicate Announced(reply: Message, req: nat, pixels: seq<byte>)
      reads this
    {
      && reply == ScreenInfo(req, transfer.frameId, |pixels|, Crc32(pixels, 0))
      && transfer == Transfer(true, req, 0, |pixels|, transfer.frameId)
    }

    method StartTransfer(req: nat, n: nat) returns (reply: Message)
      requires ScreenAgrees() && !transfer.active && n <= frame.Length
      modifies `transfer, `nextFrameId, `log
      ensures ScreenAgrees() && log == old(log) + [Received(reply)] && transfer.active
      ensures Announced(reply, req, frame[..n])
      ensures nextFrameId == (old(nextFrameId) + 1) % WRAP_32 && transfer.frameId == old(nextFrameId)
    {
      ghost var all, pixels := frame[..], frame[..n];
      assert pixels == all[..n];
      reply := ScreenInfo(req, nextFrameId, Low32(n), Crc32(frame[..n], 0));
      transfer := Transfer(true, req, 0, n, nextFrameId);
      StreamsStart(Watched(log), transfer, all);
      Emit(reply);
      nextFrameId := (nextFrameId + 1) % WRAP_32;
      assert frame[..] == all && frame[..n] == pixels;
    }

    /** Each pump sends the next chunk, or the end, and there is one fewer to do. */
    method Pump() returns (more: bool)
      requires ScreenAgrees()
      modifies `transfer, `log
      ensures ScreenAgrees() && more == (transfer.active && old(transfer.active))
      ensures PumpsLeft(transfer) == if old(transfer.active) then old(PumpsLeft(transfer)) - 1 else 0
      ensures transfer.active <==> PumpsLeft(transfer) > 0
      ensures log == old(log) + PumpSights(old(transfer), frame[..])
      ensures transfer == AfterPump(old(transfer))
    {
      if !transfer.active {
        return false;
      }
      if transfer.sent >= transfer.total {
        StreamsEnd(Watched(log), transfer, frame[..]);
        Emit(ScreenEnd(transfer.req, transfer.frameId));
        transfer := transfer.(active := false);
        return false;
      }
      SendChunk();
      return true;
    }

    /** The last thing the host saw is the end of this transfer. */
    ghost predicate Ended(t: Transfer)
      reads `log
    {
      log != [] && log[|log| - 1] == Received(ScreenEnd(t.req, t.frameId))
    }

    method NextChunk() returns (bytes: seq<byte>)
      requires transfer.sent < transfer.total <= frame.Length
      ensures bytes == frame[..][transfer.sent..transfer.sent + ChunkSize(transfer)]
    {
      bytes := frame[transfer.sent..transfer.sent + ChunkSize(transfer)];
    }

    method SendChunk()
      requires ScreenAgrees() && transfer.active && transfer.sent < transfer.total
      modifies `transfer, `log
      ensures ScreenAgrees() && PumpsLeft(transfer) == old(PumpsLeft(transfer)) - 1
      ensures log == old(log) + PumpSights(old(transfer), frame[..]) && transfer == AfterPump(old(transfer))
    {
      var bytes := NextChunk();
      StreamsChunk(Watched(log), transfer, frame[..], bytes);
      Emit(ScreenData(transfer.req, Low32(transfer.sent), bytes));
      transfer := transfer.(sent := transfer.sent + |bytes|);
    }

    // -------------------------------------------------------------------------
    // Input.

    /** The answer is that of the window over everything ever asked; `RateWindow` says what it keeps. */
    method RateAllows(now: nat) returns (ok: bool)
      requires RateAgrees()
      modifies `rateWindowStart, `rateWindowCount, `asked
      ensures RateAgrees() && asked == old(asked) + [now]
      ensures ok <==> RateWindow.Passes(limits.maxEventsPerS, asked, |old(asked)|)
    {
      RateWindow.GateAppend(limits.maxEventsPerS, asked, now);
      asked := asked + [now];
      if Elapsed(now, rateWindowStart) >= 1000 {
        rateWindowStart, rateWindowCount := now, 0;
      }
      if rateWindowCount >= limits.maxEventsPerS {
        return false;
      }
      rateWindowCount := rateWindowCount + 1;
      return true;
    }

    /** The checks made before the state machine is asked. */
    method Screened(e: InputEvent, shape: Shape) returns (refusal: Option<ErrorCode>)
      requires InputsAgree()
      ensures refusal.Some? ==> Explains(refusal.value, state.Seen(), e, shape, board) && refusal.value != QueueFull
      ensures refusal == None ==> OnPanel(e, shape) && !Sealed(e, board) && !Meddles(state.Seen(), e)
    {
      if !e.kind.IsButton() && (e.x < 0 || e.y < 0 || e.x >= shape.width || e.y >= shape.height) {
        return Some(BadInput);
      }
      if e.kind == PointerDown && e.touchId >= MAX_TOUCH_POINTS {
        return Some(TooManyTouches);
      }
      if e.kind.IsButton() && board.injectable.Some? && e.button < board.buttonCount
        && !board.injectable.value[e.button] {
        return Some(Unsupported);
      }
      if (e.kind == PointerUp || e.kind == PointerMove) && state.pointerDown && state.pointerOrigin != Remote {
        return Some(BadInput);
      }
      return None;
    }

    /** Apply, then push; and if the queue is full, apply the opposite. */
    method Offer(e: InputEvent, ghost shape: Shape) returns (refusal: Option<ErrorCode>)
      requires InputsAgree() && e.origin == Remote
      requires OnPanel(e, shape) && !Sealed(e, board) && !Meddles(state.Seen(), e)
      modifies state, queue, queue.buffer
      ensures InputsAgree() && queue.taken == old(queue.taken)
      ensures refusal == None <==> old(Welcome(state.Seen(), e, shape, board)) && old(queue.count) < RING_CAPACITY
      ensures refusal == None ==>
                queue.history == old(queue.history) + [e] && state.Seen() == Next(old(state.Seen()), e)
      ensures refusal.Some? ==> queue.history == old(queue.history) && state.Seen() == old(state.Seen())
                                && Explains(refusal.value, old(state.Seen()), e, shape, board)
    {
      ghost var v := state.Seen();
      var beforeX, beforeY := state.pointerX, state.pointerY;
      var ok := state.Apply(e, board.buttonCount);
      if !ok {
        return Some(BadInput);
      }
      var queued := queue.Push(e);
      if !queued {
        WelcomeUndone(queue.history, v, e, shape, board);
        var back := match e.kind
          case ButtonDown => ButtonUp
          case ButtonUp => ButtonDown
          case PointerDown => PointerUp
          case PointerUp => PointerDown
          case PointerMove => PointerMove;
        var _ := state.Apply(e.(kind := back, x := beforeX, y := beforeY), board.buttonCount);
        return Some(QueueFull);
      }
      TellsNext(old(queue.history), v, e);
      return None;
    }

    /** A request is accepted exactly when it decodes, the window has room, the event is welcome and
        the queue can take it; then the event is both applied and queued.  Otherwise neither: the
        state is what it was, coordinates included, and the code says why. */
    method HandleInput(body: Option<InputBody>, now: nat, shape: Shape) returns (refusal: Option<ErrorCode>)
      requires InputsAgree() && RateAgrees() && ScreenAgrees()
      modifies state, queue, queue.buffer, `buttonDownAt, `pointerDownAt, `rateWindowStart, `rateWindowCount, `asked
      ensures InputsAgree() && RateAgrees()
      ensures InputDecided(Kept(), old(Now()), body, now, shape, refusal, Now())
      ensures refusal == None ==> body.Some? && Obeyed(old(state.Seen()), body.value, state.Seen())
                                  && Timed(old(Now()), body.value, now, Now())
    {
      ghost var m := Now();
      if body == None || body.value.kind >= |KINDS| {
        return Some(BadBody);
      }
      var allowed := RateAllows(now);
      if !allowed {
        return Some(RateLimited);
      }
      refusal := Inject(EventOf(body.value, now), now, shape);
      if refusal == None {
        AcceptedIsObeyed(Kept(), m, body.value, now, shape, Now());
      }
    }

    method Inject(e: InputEvent, now: nat, shape: Shape) returns (refusal: Option<ErrorCode>)
      requires InputsAgree() && ScreenAgrees() && e.origin == Remote
      modifies state, queue, queue.buffer, `buttonDownAt, `pointerDownAt
      ensures InputsAgree() && Injected(Kept(), old(Now()), e, now, shape, refusal, Now())
    {
      refusal := Screened(e, shape);
      if refusal == None {
        refusal := Place(e, now, shape);
      }
    }

    method Place(e: InputEvent, now: nat, ghost shape: Shape) returns (refusal: Option<ErrorCode>)
      requires InputsAgree() && ScreenAgrees() && e.origin == Remote
      requires OnPanel(e, shape) && !Sealed(e, board) && !Meddles(state.Seen(), e)
      modifies state, queue, queue.buffer, `buttonDownAt, `pointerDownAt
      ensures InputsAgree() && Injected(Kept(), old(Now()), e, now, shape, refusal, Now())
    {
      refusal := Offer(e, shape);
      if refusal == None {
        HeldFrom(e, now);
      }
    }

    /** The hold timer runs on the device's clock, never on the client's timestamp. */
    method HeldFrom(e: InputEvent, now: nat)
      requires |buttonDownAt| == MAX_BUTTONS && (e.kind == ButtonDown ==> e.button < MAX_BUTTONS)
      modifies `buttonDownAt, `pointerDownAt
      ensures buttonDownAt == if e.kind == ButtonDown then old(buttonDownAt)[e.button := now] else old(buttonDownAt)
      ensures pointerDownAt == if e.kind == PointerDown then now else old(pointerDownAt)
    {
      if e.kind == ButtonDown {
        buttonDownAt := buttonDownAt[e.button := now];
      }
      if e.kind == PointerDown {
        pointerDownAt := now;
      }
    }

    /** What was let go reached the queue; what is still held is what a full queue could not take. */
    method HandleInputReset(req: nat, now: nat) returns (reply: Message)
      requires InputsAgree() && ScreenAgrees()
      modifies state, queue, queue.buffer, `log
      ensures InputsAgree() && ScreenAgrees() && queue.taken == old(queue.taken)
      ensures Released(Remote, old(state.Seen()), state.Seen(), old(queue.history), queue.history)
      ensures HeldCount(state.Seen(), Remote) > 0 ==> queue.count == RING_CAPACITY
      ensures log == old(log) + [Received(reply)]
      ensures reply == ResetOk(req, |queue.history| - |old(queue.history)|, HeldCount(state.Seen(), Remote))
    {
      var released := state.ReleaseAll(Remote, now, queue);
      var held := state.CountHeld(Remote);
      reply := ResetOk(req, released, held);
      Emit(reply);
    }

    /** One button of `Tick`: pushed first and applied second, so a full queue loses nothing. */
    method ExpireButton(i: nat, now: nat) returns (told: bool)
      requires InputsAgree() && i < MAX_BUTTONS
      modifies state, queue, queue.buffer
      ensures InputsAgree() && Now() == TickedButton(Kept(), old(Now()), i, now)
      ensures |queue.history| == |old(queue.history)| + if told then 1 else 0
    {
      told := false;
      if state.buttonHeld[i] && state.buttonOrigin[i] == Remote && Elapsed(now, buttonDownAt[i]) > limits.maxHoldMs {
        told := queue.Push(ButtonRelease(i, Remote, now));
        if told {
          TellsNext(old(queue.history), state.Seen(), ButtonRelease(i, Remote, now));
          var _ := state.Apply(ButtonRelease(i, Remote, now), MAX_BUTTONS);
        }
      }
    }

    method ExpirePointer(now: nat) returns (told: bool)
      requires InputsAgree()
      modifies state, queue, queue.buffer
      ensures InputsAgree() && Now() == TickedPointer(Kept(), old(Now()), now)
      ensures |queue.history| == |old(queue.history)| + if told then 1 else 0
    {
      told := false;
      if state.pointerDown && state.pointerOrigin == Remote && Elapsed(now, pointerDownAt) > limits.maxHoldMs {
        var up := InputEvent(PointerUp, Remote, 0, state.pointerX, state.pointerY, state.pointerTouchId, now);
        told := queue.Push(up);
        if told {
          TellsNext(old(queue.history), state.Seen(), up);
          var _ := state.Apply(up, MAX_BUTTONS);
        }
      }
    }

    method ExpireButtons(now: nat) returns (expired: nat)
      requires InputsAgree()
      modifies state, queue, queue.buffer
      ensures InputsAgree() && Now() == TickedButtons(Kept(), old(Now()), now, MAX_BUTTONS)
      ensures expired == |queue.history| - |old(queue.history)|
    {
      ghost var before := Now();
      expired := 0;
      for i := 0 to MAX_BUTTONS
        invariant InputsAgree() && Now() == TickedButtons(Kept(), before, now, i)
        invariant expired == |queue.history| - |before.history|
      {
        var told := ExpireButton(i, now);
        expired := if told then expired + 1 else expired;
      }
    }

    /** What a host has held too long is let go; a hold that survives its limit is tried again by the next
        tick. */
    method Tick(now: nat) returns (expired: nat)
      requires Valid()
      modifies state, queue, queue.buffer
      ensures Valid() && Now() == Ticked(Kept(), old(Now()), now) && log == old(log)
      ensures expired == |queue.history| - |old(queue.history)|
    {
      expired := ExpireButtons(now);
      var told := ExpirePointer(now);
      expired := if told then expired + 1 else expired;
    }

    // -------------------------------------------------------------------------
    // Sessions.

    /** Lift what the remote holds and abandon the transfer. */
    method EndSession(now: nat)
      requires InputsAgree()
      modifies state, queue, queue.buffer, `transfer
      ensures InputsAgree() && queue.taken == old(queue.taken) && transfer == old(transfer).(active := false)
      ensures Released(Remote, old(state.Seen()), state.Seen(), old(queue.history), queue.history)
      ensures HeldCount(state.Seen(), Remote) > 0 ==> queue.count == RING_CAPACITY
    {
      var _ := state.ReleaseAll(Remote, now, queue);
      transfer := transfer.(active := false);
    }

    method CutOff()
      requires !transfer.active && frame.Length < WRAP_32 && !Watched(log).Confused?
      modifies `log
      ensures ScreenAgrees() && log == old(log) + [Cut]
    {
      StreamsCut(log, transfer, frame[..]);
      log := log + [Cut];
    }

    method OnDisconnect(now: nat)
      requires Valid()
      modifies state, queue, queue.buffer, `transfer, `log
      ensures Valid() && Unplugged(old(Now()), Now()) && log == old(log) + [Cut]
    {
      EndSession(now);
      CutOff();
    }

    method HandleHello(req: nat, session: Option<nat>, now: nat) returns (reply: Message)
      requires InputsAgree() && ScreenAgrees()
      modifies state, queue, queue.buffer, `transfer, `log
      ensures InputsAgree() && ScreenAgrees() && queue.taken == old(queue.taken)
      ensures log == old(log) + [Received(reply)]
      ensures session == None ==> reply == Refused(req, BadBody) && transfer == old(transfer)
                                  && queue.history == old(queue.history) && state.Seen() == old(state.Seen())
      ensures session.Some? ==> reply == HelloOk(req, session.value) && transfer == old(transfer).(active := false)
      ensures Released(Remote, old(state.Seen()), state.Seen(), old(queue.history), queue.history)
      ensures session.Some? && HeldCount(state.Seen(), Remote) > 0 ==> queue.count == RING_CAPACITY
    {
      if session == None {
        reply := Refused(req, BadBody);
      } else {
        EndSession(now);
        reply := HelloOk(req, session.value);
      }
      Emit(reply);
    }

    /** Whatever the message, the agreements hold; it does what its kind says, and one that decodes is
        answered exactly once, under its own number. */
    method Handle(message: Option<Envelope>, now: nat, source: Source) returns (reply: Option<Message>)
      requires Valid() && |source.pixels| <= frame.Length
      modifies this, state, queue, queue.buffer, frame
      ensures Valid() && Handled(Kept(), old(Now()), message, now, source, reply, Now())
      ensures log == if message == None then old(log) else old(log) + [Received(reply.value)]
    {
      if message == None {
        return None;
      }
      var Envelope(version, ours, req, op) := message.value;
      var m := Refused(req, if ours then VersionMismatch else UnknownOpcode);
      if message.value.Reached() {
        m := Dispatch(req, op, now, source);
      } else {
        Emit(m);
      }
      return Some(m);
    }

    method Dispatch(req: nat, op: Request, now: nat, source: Source) returns (reply: Message)
      requires Valid() && |source.pixels| <= frame.Length
      modifies this, state, queue, queue.buffer, frame
      ensures Valid() && Served(Kept(), old(Now()), req, op, now, source, reply, Now())
      ensures log == old(log) + [Received(reply)]
    {
      match op
      case Hello(session) => reply := ServeHello(req, session, now);
      case Screen => reply := ServeScreen(req, source);
      case InputRequest(body) => reply := HandleInputRequest(req, body, now, source.shape);
      case InputReset => reply := ServeReset(req, now);
      case WaitStable(quietMs) => reply := HandleWaitStable(req, quietMs, source.settled);
      case Unknown =>
        reply := Refused(req, UnknownOpcode);
        Emit(reply);
    }

    method ServeHello(req: nat, session: Option<nat>, now: nat) returns (reply: Message)
      requires Valid()
      modifies state, queue, queue.buffer, `transfer, `log
      ensures Valid() && HelloServed(old(Now()), req, session, reply, Now()) && log == old(log) + [Received(reply)]
    {
      reply := HandleHello(req, session, now);
    }

    method ServeScreen(req: nat, source: Source) returns (reply: Message)
      requires Valid() && |source.pixels| <= frame.Length
      modifies `transfer, `nextFrameId, `log, frame
      ensures Valid() && ScreenServed(old(Now()), req, source, reply, Now()) && log == old(log) + [Received(reply)]
    {
      ghost var m := Now();
      reply := HandleScreen(req, source);
      ScreenIsServed(m, req, source, reply, Now());
    }

    method ServeReset(req: nat, now: nat) returns (reply: Message)
      requires Valid()
      modifies state, queue, queue.buffer, `log
      ensures Valid() && ResetServed(old(Now()), req, reply, Now()) && log == old(log) + [Received(reply)]
    {
      reply := HandleInputReset(req, now);
    }

    method HandleInputRequest(req: nat, body: Option<InputBody>, now: nat, shape: Shape) returns (reply: Message)
      requires Valid()
      modifies state, queue, queue.buffer, `buttonDownAt, `pointerDownAt, `rateWindowStart, `rateWindowCount,
               `asked, `log
      ensures Valid() && InputServed(Kept(), old(Now()), req, body, now, shape, reply, Now())
      ensures log == old(log) + [Received(reply)]
    {
      var refusal := HandleInput(body, now, shape);
      reply := AnswerInput(req, refusal);
    }

    method AnswerInput(req: nat, refusal: Option<ErrorCode>) returns (reply: Message)
      requires ScreenAgrees()
      modifies `log
      ensures ScreenAgrees() && log == old(log) + [Received(reply)]
      ensures reply == Answer(req, refusal)
    {
      reply := if refusal.Some? then Refused(req, refusal.value) else InputOk(req);
      Emit(reply);
    }

    /** The interface is never called settled while an event waits to be read. */
    method HandleWaitStable(req: nat, quietMs: Option<nat>, settled: bool) returns (reply: Message)
      requires queue.Valid() && ScreenAgrees()
      modifies `log
      ensures ScreenAgrees() && log == old(log) + [Received(reply)]
      ensures reply == if quietMs == None then Refused(req, BadInput)
                       else StableOk(req, settled && queue.taken == |queue.history|)
    {
      reply := if quietMs == None then Refused(req, BadInput) else StableOk(req, queue.count == 0 && settled);
      Emit(reply);
    }
  }
}
