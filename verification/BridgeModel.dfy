/** The debug channel seen from the host (debug/src/bridge.cpp): the messages that go out, what a
    host makes of a screen transfer, and what a remote input event has to satisfy. */
module BridgeModel {
  import opened Wrappers
  import opened Checksums
  import opened InputModel

  /** The image bytes one message can carry: 192 of payload, less envelope and offset. */
  const CHUNK_BYTES: nat := 178

  /** Milliseconds on a 32-bit tick that wraps. */
  function Elapsed(now: nat, since: nat): nat {
    (now - since) % WRAP_32
  }

  /** A number as the four bytes of a message carry it. */
  function Low32(n: nat): (low: nat)
    ensures n < WRAP_32 ==> low == n
  {
    n % WRAP_32
  }

  datatype ErrorCode = UnknownOpcode | BadBody | Unsupported | BadInput | TooManyTouches | NoScreen | Busy
                     | RateLimited | VersionMismatch | QueueFull | CaptureFailed | ScreenGeometry

  datatype Message =
    | ScreenInfo(req: nat, frameId: nat, total: nat, crc: bv32)
    | ScreenData(req: nat, offset: nat, bytes: seq<byte>)
    | ScreenEnd(req: nat, frameId: nat)
    | InputOk(req: nat)
    | ResetOk(req: nat, released: nat, stillHeld: nat)
    | StableOk(req: nat, ready: bool)
    | HelloOk(req: nat, session: nat)
    | Refused(req: nat, code: ErrorCode)

  /** What a host can see happen on the channel. */
  datatype Sight = Received(m: Message) | Cut

  // ---------------------------------------------------------------------------
  // The host's half of a screen transfer.

  datatype Host = Idle | Receiving(req: nat, frameId: nat, total: nat, crc: bv32, data: seq<byte>) | Confused

  /** A strict host: it accepts chunks only for the transfer announced to it, at exactly the offset
      it has reached, and an end only when the announced length and checksum are met.  A new
      session forgets the old transfer, so a chunk that is left over from it is an error. */
  function Watch(h: Host, s: Sight): Host {
    match s
    case Cut | Received(HelloOk(_, _)) => if h.Confused? then Confused else Idle
    case Received(ScreenInfo(req, id, total, crc)) => if h.Idle? then Receiving(req, id, total, crc, []) else Confused
    case Received(ScreenData(req, offset, bytes)) =>
      if h.Receiving? && h.req == req && offset == |h.data| && bytes != [] && |h.data| + |bytes| <= h.total
      then h.(data := h.data + bytes) else Confused
    case Received(ScreenEnd(req, id)) =>
      if h.Receiving? && h.req == req && h.frameId == id && |h.data| == h.total && Crc32(h.data, 0) == h.crc
      then Idle else Confused
    case _ => h
  }

  ghost function Watched(log: seq<Sight>): Host {
    if log == [] then Idle else Watch(Watched(log[..|log| - 1]), log[|log| - 1])
  }

  lemma WatchedNext(log: seq<Sight>, s: Sight)
    ensures Watched(log + [s]) == Watch(Watched(log), s)
  {
    assert (log + [s])[..|log + [s]| - 1] == log;
  }

  datatype Transfer = Transfer(active: bool, req: nat, sent: nat, total: nat, frameId: nat)

  /** The host has seen what the bridge thinks it sent: nothing, or the announcement of `frame` and
      its first `sent` bytes. */
  ghost predicate Streaming(h: Host, t: Transfer, frame: seq<byte>) {
    if t.active then
      && t.sent <= t.total <= |frame| < WRAP_32
      && h == Receiving(t.req, t.frameId, t.total, Crc32(frame[..t.total], 0), frame[..t.sent])
    else h == Idle
  }

  /** A pump for every chunk of `n` bytes, full or not, and one for the end. */
  function Pumps(n: nat): nat {
    (n + CHUNK_BYTES - 1) / CHUNK_BYTES + 1
  }

  /** How many more pumps do something. */
  function PumpsLeft(t: Transfer): nat {
    if !t.active || t.total < t.sent then 0 else Pumps(t.total - t.sent)
  }

  function ChunkSize(t: Transfer): nat
    requires t.sent <= t.total
  {
    if t.total - t.sent < CHUNK_BYTES then t.total - t.sent else CHUNK_BYTES
  }

  /** What one pump sends, and leaves to do. */
  function PumpSights(t: Transfer, frame: seq<byte>): seq<Sight>
    requires t.active ==> t.sent <= t.total <= |frame|
  {
    if !t.active then []
    else if t.sent >= t.total then [Received(ScreenEnd(t.req, t.frameId))]
    else [Received(ScreenData(t.req, Low32(t.sent), frame[t.sent..t.sent + ChunkSize(t)]))]
  }

  function AfterPump(t: Transfer): Transfer
    requires t.active ==> t.sent <= t.total
  {
    if !t.active then t
    else if t.sent >= t.total then t.(active := false)
    else t.(sent := t.sent + ChunkSize(t))
  }

  lemma StreamsCut(log: seq<Sight>, t: Transfer, frame: seq<byte>)
    requires !t.active && !Watched(log).Confused?
    ensures Streaming(Watched(log + [Cut]), t, frame)
  {
    WatchedNext(log, Cut);
  }

  lemma StreamsStart(h: Host, t: Transfer, frame: seq<byte>)
    requires h == Idle && t.active && t.sent == 0 && t.total <= |frame| < WRAP_32
    ensures Streaming(Watch(h, Received(ScreenInfo(t.req, t.frameId, t.total, Crc32(frame[..t.total], 0)))), t, frame)
  {
  }

  lemma StreamsChunk(h: Host, t: Transfer, frame: seq<byte>, bytes: seq<byte>)
    requires t.active && t.sent < t.total && Streaming(h, t, frame)
    requires bytes == frame[t.sent..t.sent + ChunkSize(t)]
    ensures Streaming(Watch(h, Received(ScreenData(t.req, t.sent, bytes))), t.(sent := t.sent + |bytes|), frame)
    ensures PumpsLeft(t.(sent := t.sent + |bytes|)) == PumpsLeft(t) - 1
  {
    assert frame[..t.sent] + bytes == frame[..t.sent + |bytes|];
  }

  lemma StreamsEnd(h: Host, t: Transfer, frame: seq<byte>)
    requires t.active && t.sent == t.total && Streaming(h, t, frame)
    ensures Watch(h, Received(ScreenEnd(t.req, t.frameId))) == Idle
    ensures PumpsLeft(t) == 1
  {
  }

  // ---------------------------------------------------------------------------
  // Remote input.

  /** The body of an input request, as it was decoded. */
  datatype InputBody = InputBody(kind: nat, button: nat, x: int, y: int, touchId: nat, atMs: nat)

  const KINDS: seq<EventType> := [ButtonDown, ButtonUp, PointerDown, PointerMove, PointerUp]

  function EventOf(b: InputBody, now: nat): InputEvent
    requires b.kind < |KINDS|
  {
    InputEvent(KINDS[b.kind], Remote, b.button, b.x, b.y, b.touchId, if b.atMs == 0 then now else b.atMs)
  }

  datatype Shape = Shape(width: nat, height: nat, bytes: nat)

  /** The buttons of a board; `injectable` is absent when the source has no descriptors. */
  datatype Board = Board(buttonCount: nat, injectable: Option<seq<bool>>) {
    ghost predicate Valid() {
      injectable.Some? ==> buttonCount <= |injectable.value|
    }
  }

  predicate OnPanel(e: InputEvent, shape: Shape) {
    e.kind.IsButton() || (0 <= e.x < shape.width && 0 <= e.y < shape.height)
  }

  /** A button that exists and that a host must not press: nothing on the real board would. */
  predicate Sealed(e: InputEvent, board: Board)
    requires board.Valid()
  {
    e.kind.IsButton() && board.injectable.Some? && e.button < board.buttonCount && !board.injectable.value[e.button]
  }

  /** Moving or lifting a finger that a person has on the glass. */
  predicate Meddles(v: View, e: InputEvent) {
    (e.kind == PointerMove || e.kind == PointerUp) && v.pointer.Pressed? && v.pointer.holder != Remote
  }

  predicate Possible(v: View, e: InputEvent, board: Board)
    requires WellFormed(v)
  {
    Accepts(v, e) && (e.kind.IsButton() ==> e.button < board.buttonCount)
  }

  predicate Welcome(v: View, e: InputEvent, shape: Shape, board: Board)
    requires WellFormed(v) && board.Valid()
  {
    OnPanel(e, shape) && !Sealed(e, board) && !Meddles(v, e) && Possible(v, e, board)
  }

  /** What each way of refusing an event lets the host conclude. */
  predicate Explains(code: ErrorCode, v: View, e: InputEvent, shape: Shape, board: Board)
    requires WellFormed(v) && board.Valid()
  {
    match code
    case TooManyTouches => e.kind == PointerDown && e.touchId >= MAX_TOUCH_POINTS && OnPanel(e, shape)
    case Unsupported => Sealed(e, board)
    case BadInput => !Sealed(e, board) && (!OnPanel(e, shape) || Meddles(v, e) || !Possible(v, e, board))
    case QueueFull => Welcome(v, e, shape, board)
    case _ => false
  }

  /** A welcome event can be taken back without a trace. */
  lemma WelcomeUndone(history: seq<InputEvent>, v: View, e: InputEvent, shape: Shape, board: Board)
    requires Tells(history, v) && board.Valid() && e.origin == Remote && Welcome(v, e, shape, board)
    ensures Possible(Next(v, e), Undo(v, e), board) && Next(Next(v, e), Undo(v, e)) == v
  {
    if v.pointer.Pressed? {
      HeldFingerIsAdmitted(history, v);
    }
    UndoRestores(v, e);
  }
}
