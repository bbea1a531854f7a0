/** The requests of the debug channel and what each of them does (debug/src/bridge.cpp:76-397), said of the
    bridge before and after. */
module BridgeRequests {
  import opened Wrappers
  import opened Checksums
  import opened InputModel
  import opened BridgeModel
  import RateWindow

  const PROTOCOL_VERSION: nat := 3

  datatype Request =
    | Hello(session: Option<nat>)
    | Screen
    | InputRequest(body: Option<InputBody>)
    | InputReset
    | WaitStable(quietMs: Option<nat>)
    | Unknown
  {
    /** The rate window is asked about it. */
    predicate Asks() {
      this.InputRequest? && body.Some? && body.value.kind < |KINDS|
    }

    /** It ends the session. */
    predicate Ends() {
      this.Hello? && session.Some?
    }
  }

  datatype Envelope = Envelope(version: nat, ours: bool, req: nat, op: Request) {
    /** Hello is understood whatever the version, so that a mismatch can be told. */
    predicate Reached() {
      ours && (version == PROTOCOL_VERSION || op.Hello?)
    }
  }

  datatype Failure = NoFailure | ShapeQuery | NotRendered | BufferTooSmall | RendererFailed | GeometryMismatch

  /** What the screen source answers: its shape, the pixels it wrote, whether it calls them a frame,
      and whether the interface has settled. */
  datatype Source = Source(shape: Shape, pixels: seq<byte>, whole: bool, why: Failure, settled: bool)

  datatype Limits = Limits(maxHoldMs: nat, maxEventsPerS: nat)

  /** The bridge, the queue and the state machine at one moment: everything ever queued and how much of it
      has been taken, what is held and since when, the transfer and its frame, and when the rate window was
      asked. */
  datatype Scene = Scene(
    history: seq<InputEvent>, taken: nat, view: View, buttonsAt: seq<nat>, pointerAt: nat, asked: seq<nat>,
    transfer: Transfer, frame: seq<byte>, nextFrame: nat)
  {
    predicate Full() {
      |history| - taken >= RING_CAPACITY
    }

    ghost predicate Sane() {
      && WellFormed(view) && |buttonsAt| == MAX_BUTTONS
      && (transfer.active ==> transfer.sent <= transfer.total <= |frame|)
    }
  }

  /** What one bridge never changes. */
  datatype Fixed = Fixed(board: Board, limits: Limits)

  /** What the remote held is let go, as far as the queue has room, and nothing else changes. */
  ghost predicate LetsGo(m: Scene, n: Scene)
    requires m.Sane() && n.Sane()
  {
    && n == m.(history := n.history, view := n.view)
    && Released(Remote, m.view, n.view, m.history, n.history)
    && (HeldCount(n.view, Remote) > 0 ==> n.Full())
  }

  /** A Hello that decodes ends the old session before it is answered. */
  ghost predicate HelloServed(m: Scene, req: nat, session: Option<nat>, reply: Message, n: Scene)
    requires m.Sane() && n.Sane()
  {
    if session == None then reply == Refused(req, BadBody) && n == m
    else reply == HelloOk(req, session.value) && LetsGo(m.(transfer := m.transfer.(active := false)), n)
  }

  /** Why there is no picture: it does not fit, or what the source says, and otherwise that none was drawn. */
  function Diagnosis(source: Source, capacity: nat): ErrorCode {
    if capacity == 0 || source.shape.bytes > capacity || source.why == BufferTooSmall then Unsupported
    else if source.why == RendererFailed then CaptureFailed
    else if source.why == GeometryMismatch then ScreenGeometry
    else NoScreen
  }

  /** A transfer starts exactly from a whole frame that fits while none runs, announced with its length and
      its CRC-32. */
  ghost predicate ScreenServed(m: Scene, req: nat, source: Source, reply: Message, n: Scene) {
    if m.transfer.active then reply == Refused(req, Busy) && n == m
    else if source.whole && source.pixels != [] && source.shape.bytes <= |m.frame| then
      && reply == ScreenInfo(req, m.nextFrame, |source.pixels|, Crc32(source.pixels, 0))
      && |n.frame| == |m.frame| && source.pixels <= n.frame
      && n == m.(frame := n.frame, transfer := Transfer(true, req, 0, |source.pixels|, m.nextFrame),
                 nextFrame := (m.nextFrame + 1) % WRAP_32)
    else
      && reply == Refused(req, Diagnosis(source, |m.frame|))
      && |n.frame| == |m.frame| && n == m.(frame := n.frame)
  }

  lemma ScreenIsServed(m: Scene, req: nat, source: Source, reply: Message, n: Scene)
    requires |n.frame| == |m.frame| && n == m.(transfer := n.transfer, frame := n.frame, nextFrame := n.nextFrame)
    requires m.transfer.active ==>
               reply == Refused(req, Busy) && n.transfer == m.transfer && n.frame == m.frame
                 && n.nextFrame == m.nextFrame
    requires !m.transfer.active ==>
               (n.transfer.active <==> source.whole && source.pixels != [] && source.shape.bytes <= |m.frame|)
    requires !m.transfer.active && n.transfer.active ==>
               && reply == ScreenInfo(req, m.nextFrame, |source.pixels|, Crc32(source.pixels, 0))
               && n.transfer == Transfer(true, req, 0, |source.pixels|, m.nextFrame)
               && source.pixels <= n.frame && n.nextFrame == (m.nextFrame + 1) % WRAP_32
    requires !m.transfer.active && !n.transfer.active ==>
               n.transfer == m.transfer && n.nextFrame == m.nextFrame
               && reply == Refused(req, Diagnosis(source, |m.frame|))
    ensures ScreenServed(m, req, source, reply, n)
  {
  }

  /** An event is applied and queued exactly when it is welcome and the queue has room; otherwise nothing
      changes, and the code says why not. */
  ghost predicate Injected(f: Fixed, m: Scene, e: InputEvent, now: nat, shape: Shape, refusal: Option<ErrorCode>,
                           n: Scene)
    requires m.Sane() && f.board.Valid()
  {
    if Welcome(m.view, e, shape, f.board) && !m.Full() then refusal == None && n == Applied(m, e, now)
    else refusal.Some? && Explains(refusal.value, m.view, e, shape, f.board) && n == m
  }

  /** Before that it has to decode and the window has to let it through. */
  ghost predicate InputDecided(f: Fixed, m: Scene, body: Option<InputBody>, now: nat, shape: Shape,
                               refusal: Option<ErrorCode>, n: Scene)
    requires m.Sane() && f.board.Valid()
  {
    if !InputRequest(body).Asks() then refusal == Some(BadBody) && n == m
    else
      var asked := m.(asked := m.asked + [now]);
      if !RateWindow.Passes(f.limits.maxEventsPerS, asked.asked, |m.asked|) then
        refusal == Some(RateLimited) && n == asked
      else Injected(f, asked, EventOf(body.value, now), now, shape, refusal, n)
  }

  /** What an accepted request did, read off its numbers: button down and up, press, move and lift are 0 to 4;
      a button is held or freed, and the pointer goes to where the request says, under the finger it says. */
  ghost predicate Obeyed(m: View, body: InputBody, n: View)
    requires WellFormed(m) && WellFormed(n)
  {
    var mine := Pressed(Remote, body.touchId);
    if body.kind == 0 then
      body.button < MAX_BUTTONS && m.buttons[body.button] == Free
      && n == m.(buttons := m.buttons[body.button := HeldBy(Remote)])
    else if body.kind == 1 then
      body.button < MAX_BUTTONS && m.buttons[body.button] == HeldBy(Remote)
      && n == m.(buttons := m.buttons[body.button := Free])
    else if body.kind == 2 then m.pointer == Lifted && n == m.(pointer := mine, x := body.x, y := body.y)
    else if body.kind == 3 then m.pointer == mine && n == m.(x := body.x, y := body.y)
    else body.kind == 4 && m.pointer == mine && n == m.(pointer := Lifted, x := body.x, y := body.y)
  }

  /** The hold timer that an accepted request starts, on the device's clock. */
  predicate Timed(m: Scene, body: InputBody, now: nat, n: Scene)
    requires |m.buttonsAt| == |n.buttonsAt| == MAX_BUTTONS
  {
    && (n.pointerAt == if body.kind == 2 then now else m.pointerAt)
    && forall i :: 0 <= i < MAX_BUTTONS ==>
         n.buttonsAt[i] == if body.kind == 0 && i == body.button then now else m.buttonsAt[i]
  }

  /** An accepted request is obeyed to the letter: one event more in the queue, at the client's time or, if it
      gave none, at the device's. */
  lemma AcceptedIsObeyed(f: Fixed, m: Scene, body: InputBody, now: nat, shape: Shape, n: Scene)
    requires m.Sane() && n.Sane() && f.board.Valid()
    requires InputDecided(f, m, Some(body), now, shape, None, n)
    ensures Obeyed(m.view, body, n.view) && Timed(m, body, now, n) && n.taken == m.taken
    ensures |n.history| == |m.history| + 1 && n.history[..|m.history|] == m.history
    ensures var e := n.history[|m.history|];
            && e.origin == Remote && e.atMs == (if body.atMs == 0 then now else body.atMs)
            && Accepts(m.view, e) && n.view == Next(m.view, e) && (body.kind <= 1 <==> e.kind.IsButton())
    ensures body.kind >= 2 ==> 0 <= body.x < shape.width && 0 <= body.y < shape.height
    ensures body.kind <= 1 ==> body.button < f.board.buttonCount
                               && (f.board.injectable.Some? ==> f.board.injectable.value[body.button])
  {
  }

  function Answer(req: nat, refusal: Option<ErrorCode>): Message {
    if refusal.Some? then Refused(req, refusal.value) else InputOk(req)
  }

  ghost predicate InputServed(f: Fixed, m: Scene, req: nat, body: Option<InputBody>, now: nat, shape: Shape,
                              reply: Message, n: Scene)
    requires m.Sane() && f.board.Valid()
  {
    exists refusal :: reply == Answer(req, refusal) && InputDecided(f, m, body, now, shape, refusal, n)
  }

  /** The hold timers run on the device's clock, never on the client's timestamp. */
  function Applied(m: Scene, e: InputEvent, now: nat): Scene
    requires WellFormed(m.view) && Accepts(m.view, e) && |m.buttonsAt| == MAX_BUTTONS
  {
    m.(history := m.history + [e], view := Next(m.view, e),
       buttonsAt := if e.kind == ButtonDown then m.buttonsAt[e.button := now] else m.buttonsAt,
       pointerAt := if e.kind == PointerDown then now else m.pointerAt)
  }

  ghost predicate ResetServed(m: Scene, req: nat, reply: Message, n: Scene)
    requires m.Sane() && n.Sane()
  {
    LetsGo(m, n) && |m.history| <= |n.history|
    && reply == ResetOk(req, |n.history| - |m.history|, HeldCount(n.view, Remote))
  }

  predicate WaitServed(m: Scene, req: nat, quietMs: Option<nat>, settled: bool, reply: Message, n: Scene) {
    n == m
    && reply == if quietMs == None then Refused(req, BadInput) else StableOk(req, settled && m.taken == |m.history|)
  }

  /** What a request does, by its kind. */
  ghost predicate Served(f: Fixed, m: Scene, req: nat, op: Request, now: nat, source: Source, reply: Message, n: Scene)
    requires m.Sane() && n.Sane() && f.board.Valid()
  {
    match op
    case Hello(session) => HelloServed(m, req, session, reply, n)
    case Screen => ScreenServed(m, req, source, reply, n)
    case InputRequest(body) => InputServed(f, m, req, body, now, source.shape, reply, n)
    case InputReset => ResetServed(m, req, reply, n)
    case WaitStable(quietMs) => WaitServed(m, req, quietMs, source.settled, reply, n)
    case Unknown => reply == Refused(req, UnknownOpcode) && n == m
  }

  /** And a message: one that does not decode is not answered, and one that is not for this version of the
      channel is refused. */
  ghost predicate Handled(f: Fixed, m: Scene, message: Option<Envelope>, now: nat, source: Source,
                          reply: Option<Message>, n: Scene)
    requires m.Sane() && n.Sane() && f.board.Valid()
  {
    match message
    case None => reply == None && n == m
    case Some(Envelope(_, ours, req, op)) =>
      reply.Some?
      && if ours && (message.value.version == 3 || op.Hello?) then Served(f, m, req, op, now, source, reply.value, n)
         else reply.value == Refused(req, if ours then VersionMismatch else UnknownOpcode) && n == m
  }

  predicate Expired(f: Fixed, since: nat, now: nat) {
    Elapsed(now, since) > f.limits.maxHoldMs
  }

  /** A tick takes the buttons in order and then the pointer: each that the remote has held past its limit
      is let go, if the queue has room for its release. */
  function TickedButton(f: Fixed, m: Scene, i: nat, now: nat): (n: Scene)
    requires WellFormed(m.view) && |m.buttonsAt| == MAX_BUTTONS && i < MAX_BUTTONS
    ensures WellFormed(n.view) && n == m.(history := n.history, view := n.view)
  {
    if m.view.buttons[i] == HeldBy(Remote) && Expired(f, m.buttonsAt[i], now) && !m.Full() then
      m.(history := m.history + [ButtonRelease(i, Remote, now)], view := Next(m.view, ButtonRelease(i, Remote, now)))
    else m
  }

  function TickedButtons(f: Fixed, m: Scene, now: nat, n: nat): (after: Scene)
    requires WellFormed(m.view) && |m.buttonsAt| == MAX_BUTTONS && n <= MAX_BUTTONS
    ensures WellFormed(after.view) && after == m.(history := after.history, view := after.view)
  {
    if n == 0 then m else TickedButton(f, TickedButtons(f, m, now, n - 1), n - 1, now)
  }

  function TickedPointer(f: Fixed, m: Scene, now: nat): (n: Scene)
    requires WellFormed(m.view)
    ensures WellFormed(n.view) && n == m.(history := n.history, view := n.view)
  {
    if m.view.pointer.Pressed? && m.view.pointer.holder == Remote && Expired(f, m.pointerAt, now) && !m.Full() then
      m.(history := m.history + [PointerRelease(m.view, Remote, now)],
         view := Next(m.view, PointerRelease(m.view, Remote, now)))
    else m
  }

  function Ticked(f: Fixed, m: Scene, now: nat): (n: Scene)
    requires WellFormed(m.view) && |m.buttonsAt| == MAX_BUTTONS
    ensures WellFormed(n.view) && n == m.(history := n.history, view := n.view)
  {
    TickedPointer(f, TickedButtons(f, m, now, MAX_BUTTONS), now)
  }

  /** What holds after the first `k` buttons. */
  ghost predicate ButtonsLetGo(f: Fixed, m: Scene, now: nat, k: nat, n: Scene)
    requires m.Sane() && n.Sane() && k <= MAX_BUTTONS
  {
    && Released(Remote, m.view, n.view, m.history, n.history) && n.view.pointer == m.view.pointer
    && (forall i :: 0 <= i < MAX_BUTTONS && n.view.buttons[i] != m.view.buttons[i] ==> Expired(f, m.buttonsAt[i], now))
    && (forall i :: k <= i < MAX_BUTTONS ==> n.view.buttons[i] == m.view.buttons[i])
    && (!n.Full() ==>
          forall i :: 0 <= i < k && n.view.buttons[i] == HeldBy(Remote) ==> !Expired(f, m.buttonsAt[i], now))
  }

  lemma {:induction false} TickedButtonsLetGo(f: Fixed, m: Scene, now: nat, k: nat)
    requires m.Sane() && k <= MAX_BUTTONS
    ensures ButtonsLetGo(f, m, now, k, TickedButtons(f, m, now, k))
  {
    if k > 0 {
      TickedButtonsLetGo(f, m, now, k - 1);
      NextButtonLetGo(f, m, now, k - 1, TickedButtons(f, m, now, k - 1));
    }
  }

  lemma NextButtonLetGo(f: Fixed, m: Scene, now: nat, k: nat, mid: Scene)
    requires m.Sane() && mid.Sane() && k < MAX_BUTTONS && ButtonsLetGo(f, m, now, k, mid)
    requires mid == m.(history := mid.history, view := mid.view)
    ensures ButtonsLetGo(f, m, now, k + 1, TickedButton(f, mid, k, now))
  {
    if TickedButton(f, mid, k, now) != mid {
      ReleasedButton(Remote, m.view, mid.view, m.history, mid.history, k, now);
    }
  }

  /** From the `n`-th event on there is nothing but releases of the remote's, made at `now`. */
  ghost predicate ReleasesFrom(history: seq<InputEvent>, n: nat, now: nat) {
    forall k :: n <= k < |history| ==>
      && history[k].origin == Remote && history[k].atMs == now
      && (history[k].kind == ButtonUp || history[k].kind == PointerUp)
  }

  lemma {:induction false} TickAddsReleases(f: Fixed, m: Scene, now: nat, k: nat)
    requires m.Sane() && k <= MAX_BUTTONS
    ensures |m.history| <= |TickedButtons(f, m, now, k).history|
    ensures ReleasesFrom(TickedButtons(f, m, now, k).history, |m.history|, now)
  {
    if k > 0 {
      TickAddsReleases(f, m, now, k - 1);
    }
  }

  /** Exactly remote holds past their limit are let go, nothing else changes, and one that outlives its
      limit does so over a full queue; and what the queue is told are releases, at the device's time. */
  lemma TickLetsGoExpired(f: Fixed, m: Scene, now: nat)
    requires m.Sane()
    ensures ReleasesFrom(Ticked(f, m, now).history, |m.history|, now)
    ensures var n := Ticked(f, m, now);
            && Released(Remote, m.view, n.view, m.history, n.history)
            && (forall i :: 0 <= i < MAX_BUTTONS && n.view.buttons[i] != m.view.buttons[i] ==>
                Expired(f, m.buttonsAt[i], now))
            && (n.view.pointer != m.view.pointer ==> Expired(f, m.pointerAt, now))
            && (!n.Full() ==>
                  && (forall i :: 0 <= i < MAX_BUTTONS && n.view.buttons[i] == HeldBy(Remote) ==>
                      !Expired(f, m.buttonsAt[i], now))
                  && (n.view.pointer.Pressed? && n.view.pointer.holder == Remote ==> !Expired(f, m.pointerAt, now)))
  {
    TickedButtonsLetGo(f, m, now, MAX_BUTTONS);
    TickAddsReleases(f, m, now, MAX_BUTTONS);
    var mid := TickedButtons(f, m, now, MAX_BUTTONS);
    if TickedPointer(f, mid, now) != mid {
      ReleasedPointer(Remote, m.view, mid.view, m.history, mid.history, now);
    }
  }

  ghost predicate Unplugged(m: Scene, n: Scene)
    requires m.Sane() && n.Sane()
  {
    LetsGo(m.(transfer := m.transfer.(active := false)), n)
  }

  /** Whatever a message does, what is queued stays queued, in order. */
  lemma HandledKeepsQueue(f: Fixed, m: Scene, message: Option<Envelope>, now: nat, source: Source,
                          reply: Option<Message>, n: Scene)
    requires m.Sane() && n.Sane() && f.board.Valid() && Handled(f, m, message, now, source, reply, n)
    ensures m.history <= n.history && n.taken == m.taken
  {
  }
}
