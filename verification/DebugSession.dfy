/** The debug channel and the interface together, as the simulator runs them (sim/main.cpp:307-369):
    host messages, ticks, disconnections, screen pumps, queue pumps and reads, in any order. */
module DebugSession {
  import opened Wrappers
  import opened Checksums
  import opened InputModel
  import opened Input
  import opened BridgeModel
  import opened BridgeRequests
  import opened DebugBridge
  import opened RemoteInput

  datatype Act =
    | Hears(message: Option<Envelope>, now: nat, source: Source)
    | Ticks(now: nat)
    | Unplugs(now: nat)
    | SendsScreen
    | Drains
    | Reads
  {
    /** It ends the session, and any transfer with it. */
    predicate Ends() {
      this.Unplugs? || (this.Hears? && message.Some? && message.value.Reached() && message.value.op.Ends())
    }
  }

  // ---------------------------------------------------------------------------
  // What each act does.

  /** The interface's end: what it has read, what waits for it, and how far into a burst it is. */
  datatype Reader = Reader(read: seq<Transition>, waiting: seq<Transition>, burst: nat)

  /** Both ends and what the host saw. */
  datatype Moment = Moment(scene: Scene, reader: Reader, log: seq<Sight>)

  ghost predicate Sane(m: Moment) {
    m.scene.Sane() && m.scene.taken <= |m.scene.history|
  }

  /** A message is answered as its kind says, and the host hears the answer. */
  ghost predicate Heard(f: Fixed, m: Moment, message: Option<Envelope>, now: nat, source: Source, n: Moment)
    requires Sane(m) && Sane(n) && f.board.Valid()
  {
    exists reply ::
      && Handled(f, m.scene, message, now, source, reply, n.scene) && n.reader == m.reader
      && n.log == if reply == None then m.log else m.log + [Received(reply.value)]
  }

  /** The queue is taken up to the end, or to the first event that needs a slot the FIFO does not have, and
      what is taken waits for the interface. */
  ghost predicate Drained(m: Moment, n: Moment)
    requires Sane(m) && Sane(n)
  {
    && n == m.(scene := m.scene.(taken := n.scene.taken), reader := m.reader.(waiting := n.reader.waiting))
    && m.scene.taken <= n.scene.taken
    && m.reader.read + n.reader.waiting == Translate(m.scene.history[..n.scene.taken])
    && (n.scene.taken == |m.scene.history|
        || (!m.scene.history[n.scene.taken].kind.IsButton() && |n.reader.waiting| == RING_CAPACITY))
  }

  /** One read takes the next transition that waits, if one does. */
  ghost predicate WasRead(m: Moment, n: Moment) {
    && n == m.(reader := n.reader)
    && if m.reader.waiting == [] then n.reader == m.reader
       else
         && n.reader.read == m.reader.read + [m.reader.waiting[0]] && n.reader.waiting == m.reader.waiting[1..]
         && (n.reader.burst > 0 <==> n.reader.waiting != [] && m.reader.burst + 1 < MAX_TRANSITIONS_PER_READ)
         && (n.reader.burst > 0 ==> n.reader.burst == m.reader.burst + 1)
  }

  ghost predicate Did(f: Fixed, m: Moment, act: Act, n: Moment)
    requires Sane(m) && Sane(n) && f.board.Valid()
  {
    match act
    case Hears(message, now, source) => Heard(f, m, message, now, source, n)
    case Ticks(now) => n == m.(scene := Ticked(f, m.scene, now))
    case Unplugs(now) => Unplugged(m.scene, n.scene) && n == m.(scene := n.scene, log := m.log + [Cut])
    case SendsScreen =>
      n == m.(scene := m.scene.(transfer := AfterPump(m.scene.transfer)),
              log := m.log + PumpSights(m.scene.transfer, m.scene.frame))
    case Drains => Drained(m, n)
    case Reads => WasRead(m, n)
  }

  // ---------------------------------------------------------------------------
  // The objects.

  /** Bridge, queue and interface agree, and it is one queue. */
  ghost predicate Live(b: Bridge, p: PointerPath)
    reads b, b.queue, b.queue.buffer, b.state, b.frame, p, p.transitions, p.queue, p.queue.buffer
  {
    b.Valid() && p.Valid() && p.queue == b.queue
  }

  ghost function Now(b: Bridge, p: PointerPath): Moment
    requires b.state.Valid()
    reads b, b.queue, b.state, b.frame, p
  {
    Moment(b.Now(), Reader(p.read, p.waiting, p.readBurst), b.log)
  }

  lemma LiveIsSane(b: Bridge, p: PointerPath)
    requires Live(b, p)
    ensures Sane(Now(b, p)) && b.Kept().board.Valid()
  {
  }

  /** What a source writes fits the buffer it is given. */
  predicate Fits(act: Act, capacity: nat) {
    act.Hears? ==> |act.source.pixels| <= capacity
  }

  lemma PrefixOfHistory(h: seq<InputEvent>, longer: seq<InputEvent>, taken: nat)
    requires h <= longer && taken <= |h|
    ensures longer[..taken] == h[..taken]
  {
  }

  method OnMessage(b: Bridge, p: PointerPath, message: Option<Envelope>, now: nat, source: Source)
    requires Live(b, p) && |source.pixels| <= b.frame.Length
    modifies b, b.state, b.queue, b.queue.buffer, b.frame
    ensures Live(b, p) && Did(b.Kept(), old(Now(b, p)), Hears(message, now, source), Now(b, p))
  {
    LiveIsSane(b, p);
    var reply := b.Handle(message, now, source);
    HandledKeepsQueue(b.Kept(), old(b.Now()), message, now, source, reply, b.Now());
    PrefixOfHistory(old(b.queue.history), b.queue.history, b.queue.taken);
  }

  method OnTick(b: Bridge, p: PointerPath, now: nat)
    requires Live(b, p)
    modifies b.state, b.queue, b.queue.buffer
    ensures Live(b, p) && Did(b.Kept(), old(Now(b, p)), Ticks(now), Now(b, p))
  {
    LiveIsSane(b, p);
    TickLetsGoExpired(b.Kept(), b.Now(), now);
    var _ := b.Tick(now);
    PrefixOfHistory(old(b.queue.history), b.queue.history, b.queue.taken);
  }

  method OnUnplug(b: Bridge, p: PointerPath, now: nat)
    requires Live(b, p)
    modifies b, b.state, b.queue, b.queue.buffer
    ensures Live(b, p) && Did(b.Kept(), old(Now(b, p)), Unplugs(now), Now(b, p))
  {
    LiveIsSane(b, p);
    b.OnDisconnect(now);
    PrefixOfHistory(old(b.queue.history), b.queue.history, b.queue.taken);
  }

  method OnScreenPump(b: Bridge, p: PointerPath)
    requires Live(b, p)
    modifies b
    ensures Live(b, p) && Did(b.Kept(), old(Now(b, p)), SendsScreen, Now(b, p))
  {
    LiveIsSane(b, p);
    var _ := b.Pump();
  }

  method OnDrain(b: Bridge, p: PointerPath)
    requires Live(b, p)
    modifies p, p.transitions, p.queue
    ensures Live(b, p) && Did(b.Kept(), old(Now(b, p)), Drains, Now(b, p))
  {
    LiveIsSane(b, p);
    p.Pump();
  }

  method OnRead(b: Bridge, p: PointerPath)
    requires Live(b, p)
    modifies p
    ensures Live(b, p) && Did(b.Kept(), old(Now(b, p)), Reads, Now(b, p))
  {
    LiveIsSane(b, p);
    ghost var before := Now(b, p).reader;
    var data, more := p.ReadPointer();
    TakesOne(before.read, before.waiting, p.read, p.waiting);
  }

  lemma TakesOne<T>(read: seq<T>, waiting: seq<T>, after: seq<T>, rest: seq<T>)
    requires after + rest == read + waiting && |after| == |read| + if waiting == [] then 0 else 1
    ensures waiting == [] ==> after == read && rest == waiting
    ensures waiting != [] ==> after == read + [waiting[0]] && rest == waiting[1..]
  {
    assert after == (after + rest)[..|after|] && rest == (after + rest)[|after|..];
  }

  /** One act of any kind does what it says, and everything goes on agreeing. */
  method Step(b: Bridge, p: PointerPath, act: Act)
    requires Live(b, p) && Fits(act, b.frame.Length)
    modifies b, b.state, b.queue, b.queue.buffer, b.frame, p, p.transitions
    ensures Live(b, p) && Did(b.Kept(), old(Now(b, p)), act, Now(b, p))
  {
    LiveIsSane(b, p);
    match act
    case Hears(message, now, source) => OnMessage(b, p, message, now, source);
    case Ticks(now) => OnTick(b, p, now);
    case Unplugs(now) => OnUnplug(b, p, now);
    case SendsScreen => OnScreenPump(b, p);
    case Drains => OnDrain(b, p);
    case Reads => OnRead(b, p);
  }

  // ---------------------------------------------------------------------------
  // Transfers.

  predicate Progress(before: Transfer, act: Act, after: Transfer) {
    && after == before.(active := after.active, sent := after.sent)
    && PumpsLeft(after) == PumpsLeft(before) - (if act.SendsScreen? then 1 else 0)
    && (after.active <==> PumpsLeft(after) > 0)
  }

  /** A running transfer goes on exactly with its own pumps, until they are done or the session ends. */
  lemma OnlyPumpsSend(f: Fixed, m: Moment, act: Act, n: Moment)
    requires Sane(m) && Sane(n) && f.board.Valid() && Did(f, m, act, n)
    requires m.scene.transfer.active && !act.Ends()
    ensures Progress(m.scene.transfer, act, n.scene.transfer) && n.scene.frame == m.scene.frame
    ensures !n.scene.transfer.active ==>
              n.log == m.log + [Received(ScreenEnd(m.scene.transfer.req, m.scene.transfer.frameId))]
  {
    PumpCounts(m.scene.transfer);
  }

  lemma PumpCounts(t: Transfer)
    requires t.active && t.sent <= t.total
    ensures PumpsLeft(t) > 0 && PumpsLeft(AfterPump(t)) == PumpsLeft(t) - 1
    ensures AfterPump(t).active <==> PumpsLeft(AfterPump(t)) > 0
  {
  }

  /** How many of the first `n` acts pump the screen. */
  function Sends(acts: seq<Act>, n: nat): nat
    requires n <= |acts|
  {
    if n == 0 then 0 else Sends(acts, n - 1) + if acts[n - 1].SendsScreen? then 1 else 0
  }

  lemma {:induction false} SendsGrow(acts: seq<Act>, m: nat, n: nat)
    requires m <= n <= |acts|
    ensures Sends(acts, m) <= Sends(acts, n)
  {
    if m < n {
      SendsGrow(acts, m, n - 1);
    }
  }

  /** Moments along acts, each from the one before. */
  ghost predicate Runs(f: Fixed, acts: seq<Act>, trace: seq<Moment>) {
    && f.board.Valid() && |trace| == |acts| + 1 && (forall i :: 0 <= i < |trace| ==> Sane(trace[i]))
    && forall i :: 0 <= i < |acts| ==> Did(f, trace[i], acts[i], trace[i + 1])
  }

  /** A transfer takes exactly the pumps it was announced to take, whatever requests, ticks, reads and
      drains come between them: as long as the session lasts, it is running until the last of them, and
      that one sends the end, with the frame unchanged throughout. */
  lemma {:induction false} TransferTakesItsPumps(f: Fixed, acts: seq<Act>, trace: seq<Moment>, n: nat)
    requires Runs(f, acts, trace) && n <= |acts| && trace[0].scene.transfer.active
    requires forall i :: 0 <= i < n ==> !acts[i].Ends()
    requires n > 0 ==> Sends(acts, n - 1) < PumpsLeft(trace[0].scene.transfer)
    ensures var first, t := trace[0].scene.transfer, trace[n].scene.transfer;
            && trace[n].scene.frame == trace[0].scene.frame && PumpsLeft(t) == PumpsLeft(first) - Sends(acts, n)
            && t == first.(active := t.active, sent := t.sent) && (t.active <==> PumpsLeft(t) > 0)
            && (!t.active ==> n > 0 && acts[n - 1].SendsScreen?
                              && trace[n].log == trace[n - 1].log + [Received(ScreenEnd(first.req, first.frameId))])
  {
    if n == 0 {
      PumpCounts(trace[0].scene.transfer);
    } else {
      SendsGrow(acts, n - 1, n);
      if n > 1 {
        SendsGrow(acts, n - 2, n - 1);
      }
      TransferTakesItsPumps(f, acts, trace, n - 1);
      OnlyPumpsSend(f, trace[n - 1], acts[n - 1], trace[n]);
    }
  }

  // ---------------------------------------------------------------------------
  // From a request to the interface.

  /** Everything queued has been read, and the history tells what is held. */
  ghost predicate CaughtUp(m: Moment) {
    && m.scene.taken == |m.scene.history| && m.reader.waiting == []
    && m.reader.read == Translate(m.scene.history) && Tells(m.scene.history, m.scene.view)
  }

  function Asking(req: nat, body: InputBody): Option<Envelope> {
    Some(Envelope(3, true, req, InputRequest(Some(body))))
  }

  /** The answer says whether it was accepted, and then what it asked for has happened. */
  lemma AcceptedAsAnswered(f: Fixed, m: Moment, req: nat, body: InputBody, now: nat, source: Source, n: Moment)
    requires Sane(m) && Sane(n) && f.board.Valid()
    requires Did(f, m, Hears(Asking(req, body), now, source), n) && n.log == m.log + [Received(InputOk(req))]
    ensures InputDecided(f, m.scene, Some(body), now, source.shape, None, n.scene) && n.reader == m.reader
  {
    var reply :|
      && Handled(f, m.scene, Asking(req, body), now, source, reply, n.scene) && n.reader == m.reader
      && n.log == if reply == None then m.log else m.log + [Received(reply.value)];
    assert n.log[|m.log|] == Received(InputOk(req));
  }

  /** A touch goes all the way: from empty buffers, an accepted request, one drain and one read leave the
      interface at exactly the point asked for, pressed for a press or a move and released for a lift, and
      the state machine holds it for the remote under the finger of the request. */
  lemma TouchIsSeen(f: Fixed, req: nat, body: InputBody, now: nat, source: Source, trace: seq<Moment>)
    requires Runs(f, [Hears(Asking(req, body), now, source), Drains, Reads], trace) && CaughtUp(trace[0])
    requires body.kind >= 2 && trace[1].log == trace[0].log + [Received(InputOk(req))]
    ensures CaughtUp(trace[3]) && trace[3].reader.read != []
    ensures Last(trace[3].reader.read) == Transition(body.x, body.y, body.kind == 2 || body.kind == 3)
    ensures Obeyed(trace[0].scene.view, body, trace[3].scene.view)
  {
    var acts := [Hears(Asking(req, body), now, source), Drains, Reads];
    assert Did(f, trace[0], acts[0], trace[1]) && Did(f, trace[1], acts[1], trace[2]);
    assert Did(f, trace[2], acts[2], trace[3]);
    TouchMoments(f, req, body, now, source, trace[0], trace[1], trace[2], trace[3]);
  }

  lemma TouchMoments(f: Fixed, req: nat, body: InputBody, now: nat, source: Source, start: Moment, heard: Moment,
                     drained: Moment, n: Moment)
    requires Sane(start) && Sane(heard) && Sane(drained) && Sane(n) && f.board.Valid() && CaughtUp(start)
    requires Did(f, start, Hears(Asking(req, body), now, source), heard)
    requires Drained(heard, drained) && WasRead(drained, n)
    requires body.kind >= 2 && heard.log == start.log + [Received(InputOk(req))]
    ensures CaughtUp(n) && n.reader.read != [] && n.log == heard.log
    ensures Last(n.reader.read) == Transition(body.x, body.y, body.kind == 2 || body.kind == 3)
    ensures Obeyed(start.scene.view, body, n.scene.view)
  {
    var before, after := start.scene, heard.scene;
    AcceptedAsAnswered(f, start, req, body, now, source, heard);
    AcceptedIsObeyed(f, before, body, now, source.shape, after);
    DrainedAndRead(before.history, after.history, heard, drained, n);
    assert after.history == before.history + [after.history[|before.history|]];
    TellsNext(before.history, before.view, after.history[|before.history|]);
    ToldEverything(after.history, after.view);
  }

  /** One pointer event is drained and read at once. */
  lemma DrainedAndRead(before: seq<InputEvent>, history: seq<InputEvent>, m: Moment, drained: Moment, n: Moment)
    requires Sane(m) && Sane(drained) && Drained(m, drained) && WasRead(drained, n)
    requires m.scene.history == history && |history| == |before| + 1 && history[..|before|] == before
    requires !history[|before|].kind.IsButton() && m.reader.read == Translate(before) && m.scene.taken == |before|
    requires m.reader.waiting == []
    ensures n.scene == m.scene.(taken := |history|) && n.reader.waiting == [] && n.reader.read == Translate(history)
  {
    TranslateNext(history, |before|);
    assert history[..|before| + 1] == history;
    var w := drained.reader.waiting;
    assert |m.reader.read + w| == |m.reader.read| + |w|;
    assert m.reader.read + w == Translate(before) + [Says(history[|before|], Last(Translate(before)).pressed)];
    assert w == (m.reader.read + w)[|m.reader.read|..];
    assert |w| == 1 && w[1..] == [] && w == [w[0]];
  }

  /** The same of the objects: what the interface has seen is the point that was asked for. */
  method Touch(b: Bridge, p: PointerPath, req: nat, body: InputBody, now: nat, source: Source)
    requires Live(b, p) && CaughtUp(Now(b, p)) && body.kind >= 2 && |source.pixels| <= b.frame.Length
    modifies b, b.state, b.queue, b.queue.buffer, b.frame, p, p.transitions
    ensures Live(b, p)
    ensures b.log == old(b.log) + [Received(InputOk(req))] ==>
              && p.seen == Transition(body.x, body.y, body.kind == 2 || body.kind == 3)
              && Obeyed(old(b.state.Seen()), body, b.state.Seen())
  {
    ghost var f, m := b.Kept(), Now(b, p);
    LiveIsSane(b, p);
    Step(b, p, Hears(Asking(req, body), now, source));
    ghost var heard := Now(b, p);
    LiveIsSane(b, p);
    Step(b, p, Drains);
    ghost var drained := Now(b, p);
    LiveIsSane(b, p);
    Step(b, p, Reads);
    LiveIsSane(b, p);
    if b.log == old(b.log) + [Received(InputOk(req))] {
      TouchMoments(f, req, body, now, source, m, heard, drained, Now(b, p));
    }
  }

  // ---------------------------------------------------------------------------
  // How long the remote can hold something.

  /** What can be held down: a button, or the finger on the glass. */
  datatype Hold = Button(i: nat) | Finger {
    predicate Exists() {
      this.Button? ==> i < MAX_BUTTONS
    }
  }

  /** The remote has it down. */
  predicate Holds(m: Scene, h: Hold)
    requires |m.view.buttons| == MAX_BUTTONS && h.Exists()
  {
    match h
    case Button(i) => m.view.buttons[i] == HeldBy(Remote)
    case Finger => m.view.pointer.Pressed? && m.view.pointer.holder == Remote
  }

  /** When it was last pressed. */
  function Since(m: Scene, h: Hold): nat
    requires |m.buttonsAt| == MAX_BUTTONS && h.Exists()
  {
    match h
    case Button(i) => m.buttonsAt[i]
    case Finger => m.pointerAt
  }

  /** A request that puts something down was accepted: from then on it is down since then. */
  lemma PressIsTimed(f: Fixed, m: Moment, req: nat, body: InputBody, now: nat, source: Source, n: Moment)
    requires Sane(m) && Sane(n) && f.board.Valid()
    requires Did(f, m, Hears(Asking(req, body), now, source), n) && n.log == m.log + [Received(InputOk(req))]
    ensures body.kind == 0 ==> Button(body.button).Exists() && Holds(n.scene, Button(body.button))
                               && Since(n.scene, Button(body.button)) == now
    ensures body.kind == 2 ==> Holds(n.scene, Finger) && Since(n.scene, Finger) == now
  {
    AcceptedAsAnswered(f, m, req, body, now, source, n);
    AcceptedIsObeyed(f, m.scene, body, now, source.shape, n.scene);
  }

  /** Nothing restarts the time of what stays down. */
  lemma TimeStands(f: Fixed, m: Moment, act: Act, n: Moment, h: Hold)
    requires Sane(m) && Sane(n) && f.board.Valid() && Did(f, m, act, n) && h.Exists() && Holds(m.scene, h)
    ensures Since(n.scene, h) == Since(m.scene, h)
  {
  }

  lemma {:induction false} TimeStandsAlong(f: Fixed, acts: seq<Act>, trace: seq<Moment>, k: nat, n: nat, h: Hold)
    requires Runs(f, acts, trace) && k <= n <= |acts| && h.Exists()
    requires forall j :: k <= j < n ==> Holds(trace[j].scene, h)
    ensures Since(trace[n].scene, h) == Since(trace[k].scene, h)
  {
    if k < n {
      TimeStandsAlong(f, acts, trace, k, n - 1, h);
      TimeStands(f, trace[n - 1], acts[n - 1], trace[n], h);
    }
  }

  /** What the remote put down at `since` and has held ever since is let go by the first tick after its limit
      that has room for it, and by none before, whatever else happens meanwhile. */
  lemma HoldEndsInTime(f: Fixed, acts: seq<Act>, trace: seq<Moment>, k: nat, n: nat, h: Hold, since: nat)
    requires Runs(f, acts, trace) && k <= n < |acts| && acts[n].Ticks? && h.Exists()
    requires since == Since(trace[k].scene, h) && forall j :: k <= j <= n ==> Holds(trace[j].scene, h)
    ensures var now, room := acts[n].now, !trace[n + 1].scene.Full();
            && (since + f.limits.maxHoldMs < now < since + WRAP_32 && room ==> !Holds(trace[n + 1].scene, h))
            && (since <= now <= since + f.limits.maxHoldMs && now < since + WRAP_32 ==> Holds(trace[n + 1].scene, h))
  {
    TimeStandsAlong(f, acts, trace, k, n, h);
    assert Did(f, trace[n], acts[n], trace[n + 1]);
    TickLetsGoExpired(f, trace[n].scene, acts[n].now);
  }

  // ---------------------------------------------------------------------------
  // The whole.

  ghost predicate FromNothing(m: Moment, capacity: nat) {
    && m.scene == Scene([], 0, INITIAL, [0, 0, 0], 0, [], Transfer(false, 0, 0, 0, 0), m.scene.frame, 1)
    && |m.scene.frame| == capacity && m.reader == Reader([], [], 0) && m.log == []
  }

  /** From nothing, act by act: after any of them the interface has been told, in order and once each, what
      everything ever queued says; what the queue's history tells is what the state machine holds; the
      host has understood everything; and with both buffers empty the pointer shown is the one held. */
  method Run(acts: seq<Act>, capacity: nat, board: Board, limits: Limits)
      returns (b: Bridge, p: PointerPath, ghost trace: seq<Moment>)
    requires capacity < WRAP_32 && board.Valid()
    requires forall i :: 0 <= i < |acts| ==> Fits(acts[i], capacity)
    ensures Live(b, p) && Runs(Fixed(board, limits), acts, trace)
    ensures FromNothing(trace[0], capacity) && trace[|acts|] == Now(b, p)
    ensures Tells(b.queue.history, b.state.Seen()) && !Watched(b.log).Confused?
    ensures p.read + p.waiting + TranslateAfter(Last(p.read + p.waiting), b.queue.history[b.queue.taken..])
            == Translate(b.queue.history)
    ensures p.waiting == [] && b.queue.taken == |b.queue.history| ==>
              p.seen == Transition(b.state.Seen().x, b.state.Seen().y, b.state.Seen().pointer.Pressed?)
  {
    b, p := Start(capacity, board, limits);
    trace := [Now(b, p)];
    LiveIsSane(b, p);
    for i := 0 to |acts|
      invariant Live(b, p) && b.frame.Length == capacity && b.Kept() == Fixed(board, limits)
      invariant fresh(b) && fresh(b.state) && fresh(b.queue) && fresh(b.queue.buffer) && fresh(b.frame)
      invariant fresh(p) && fresh(p.transitions)
      invariant Runs(Fixed(board, limits), acts[..i], trace) && trace[i] == Now(b, p)
      invariant FromNothing(trace[0], capacity)
    {
      Step(b, p, acts[i]);
      LiveIsSane(b, p);
      RunsNext(Fixed(board, limits), acts, i, trace, Now(b, p));
      trace := trace + [Now(b, p)];
    }
    assert acts[..|acts|] == acts;
    p.NothingDropped();
    if p.waiting == [] && b.queue.taken == |b.queue.history| {
      p.Settled(b.state.Seen());
    }
  }

  method Start(capacity: nat, board: Board, limits: Limits) returns (b: Bridge, p: PointerPath)
    requires capacity < WRAP_32 && board.Valid()
    ensures Live(b, p) && FromNothing(Now(b, p), capacity) && b.Kept() == Fixed(board, limits)
            && b.frame.Length == capacity
    ensures fresh(b) && fresh(b.state) && fresh(b.queue) && fresh(b.queue.buffer) && fresh(b.frame)
    ensures fresh(p) && fresh(p.transitions)
  {
    var queue := new InputQueue();
    var state := new InputState();
    var frame := new byte[capacity](_ => 0);
    b := new Bridge(queue, state, frame, board, limits);
    p := new PointerPath(queue);
  }

  lemma RunsNext(f: Fixed, acts: seq<Act>, i: nat, trace: seq<Moment>, n: Moment)
    requires i < |acts| && Runs(f, acts[..i], trace) && Sane(n) && Did(f, trace[i], acts[i], n)
    ensures Runs(f, acts[..i + 1], trace + [n])
  {
    var longer := trace + [n];
    forall k | 0 <= k < i + 1 ensures Did(f, longer[k], acts[..i + 1][k], longer[k + 1]) {
      if k < i {
        assert Did(f, trace[k], acts[..i][k], trace[k + 1]);
      }
    }
  }
}
