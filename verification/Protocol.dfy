/** The wire form of the debug channel (debug/src/protocol.cpp): little-endian fields, the body
    codecs, and the envelope.  The envelope's CRC-16 is any function of bytes to 16 bits. */
module Protocol {
  import opened Wrappers
  import opened Checksums

  // ---------------------------------------------------------------------------
  // Little-endian numbers.

  function Pow(n: nat): (p: nat)
    ensures p > 0
  {
    if n == 0 then 1 else 256 * Pow(n - 1)
  }

  function Put(v: nat, n: nat): (s: seq<byte>)
    ensures |s| == n
  {
    if n == 0 then [] else [v % 256] + Put(v / 256, n - 1)
  }

  function Get(s: seq<byte>): nat {
    if s == [] then 0 else s[0] as nat + 256 * Get(s[1..])
  }

  lemma {:induction false} GetPut(v: nat, n: nat)
    requires v < Pow(n)
    ensures Get(Put(v, n)) == v
  {
    if n > 0 {
      GetPut(v / 256, n - 1);
      assert Put(v, n)[1..] == Put(v / 256, n - 1);
    }
  }

  lemma {:induction false} PutGet(s: seq<byte>)
    ensures Get(s) < Pow(|s|) && Put(Get(s), |s|) == s
  {
    if s != [] {
      PutGet(s[1..]);
    }
  }

  lemma {:induction false} GetConcat(a: seq<byte>, b: seq<byte>)
    ensures Get(a + b) == Get(a) + Pow(|a|) * Get(b)
  {
    if a == [] {
      assert a + b == b;
    } else {
      GetConcat(a[1..], b);
      assert (a + b)[1..] == a[1..] + b;
      assert 256 * (Pow(|a| - 1) * Get(b)) == Pow(|a|) * Get(b);
    }
  }

  /** The accumulating loop of `get_u64`. */
  method GetU64(p: array<byte>, at: nat) returns (value: nat)
    requires at + 8 <= p.Length
    ensures value == Get(p[at..at + 8])
  {
    value := 0;
    var weight: nat := 1;
    for i := 0 to 8
      invariant value == Get(p[at..at + i]) && weight == Pow(i)
    {
      GetConcat(p[at..at + i], [p[at + i]]);
      assert p[at..at + i + 1] == p[at..at + i] + [p[at + i]];
      value := value + p[at + i] as nat * weight;
      weight := weight * 256;
    }
  }

  /** The writing loop of `put_u64`, and of its shorter relatives. */
  method PutBytes(p: array<byte>, at: nat, v: nat, n: nat)
    requires at + n <= p.Length
    modifies p
    ensures p[..at] == old(p[..at]) && p[at..at + n] == Put(v, n) && p[at + n..] == old(p[at + n..])
  {
    var left := v;
    for i := 0 to n
      invariant p[..at] == old(p[..at]) && p[at + n..] == old(p[at + n..])
      invariant p[at..at + i] + Put(left, n - i) == Put(v, n)
    {
      assert Put(left, n - i) == [left % 256] + Put(left / 256, n - i - 1);
      p[at + i] := left % 256;
      assert p[at..at + i + 1] == p[at..at + i] + [p[at + i]];
      left := left / 256;
    }
  }

  // ---------------------------------------------------------------------------
  // Rows of fields.

  /** Fields in order, each in its own number of bytes. */
  function Pack(values: seq<nat>, widths: seq<nat>): (s: seq<byte>)
    requires |values| == |widths|
    ensures |s| == Width(widths)
  {
    if values == [] then [] else Put(values[0], widths[0]) + Pack(values[1..], widths[1..])
  }

  function Width(widths: seq<nat>): nat {
    if widths == [] then 0 else widths[0] + Width(widths[1..])
  }

  function Unpack(s: seq<byte>, widths: seq<nat>): (values: seq<nat>)
    requires |s| >= Width(widths)
    ensures |values| == |widths|
  {
    if widths == [] then [] else [Get(s[..widths[0]])] + Unpack(s[widths[0]..], widths[1..])
  }

  predicate Fit(values: seq<nat>, widths: seq<nat>) {
    |values| == |widths| && forall i :: 0 <= i < |values| ==> values[i] < Pow(widths[i])
  }

  lemma Front(a: seq<byte>, b: seq<byte>, rest: seq<byte>)
    ensures (a + b + rest)[..|a|] == a && (a + b + rest)[|a|..] == b + rest
  {
  }

  /** What was packed is unpacked, whatever follows it. */
  lemma {:induction false} UnpackPack(values: seq<nat>, widths: seq<nat>, rest: seq<byte>)
    requires Fit(values, widths)
    ensures Unpack(Pack(values, widths) + rest, widths) == values
  {
    if values != [] {
      var first, more := Put(values[0], widths[0]), Pack(values[1..], widths[1..]);
      Front(first, more, rest);
      GetPut(values[0], widths[0]);
      UnpackPack(values[1..], widths[1..], rest);
    }
  }

  /** And every row of bytes is the packing of what it unpacks to. */
  lemma {:induction false} PackUnpack(s: seq<byte>, widths: seq<nat>)
    requires |s| == Width(widths)
    ensures Fit(Unpack(s, widths), widths) && Pack(Unpack(s, widths), widths) == s
  {
    if widths != [] {
      PutGet(s[..widths[0]]);
      PackUnpack(s[widths[0]..], widths[1..]);
      assert s == s[..widths[0]] + s[widths[0]..];
      assert Unpack(s, widths)[1..] == Unpack(s[widths[0]..], widths[1..]);
    }
  }

  // ---------------------------------------------------------------------------
  // Signed fields.

  /** The numbers of a two's complement field. */
  predicate InRange(x: int, width: nat) {
    -2 * x <= Pow(width) && 2 * x < Pow(width)
  }

  function Unsigned(x: int, width: nat): (v: nat)
    requires InRange(x, width)
    ensures v < Pow(width)
  {
    if x < 0 then x + Pow(width) else x
  }

  function Signed(v: nat, width: nat): (x: int)
    requires v < Pow(width)
    ensures InRange(x, width) && Unsigned(x, width) == v
  {
    if 2 * v >= Pow(width) then v - Pow(width) else v
  }

  // ---------------------------------------------------------------------------
  // Bodies.

  const SCREEN_INFO: seq<nat> := [4, 2, 2, 1, 1, 4, 4, 4]
  const INPUT_EVENT: seq<nat> := [1, 1, 2, 2, 1, 4]
  const TIME_SYNC: seq<nat> := [8, 2, 4, 1]

  datatype InputEventBody = InputEventBody(kind: nat, button: nat, x: int, y: int, touchId: nat, atMs: nat) {
    predicate Valid() {
      && kind < Pow(1) && button < Pow(1) && touchId < Pow(1) && atMs < Pow(4)
      && InRange(x, 2) && InRange(y, 2)
    }
  }

  function EncodeInputEvent(b: InputEventBody): seq<byte>
    requires b.Valid()
  {
    Pack([b.kind, b.button, Unsigned(b.x, 2), Unsigned(b.y, 2), b.touchId, b.atMs], INPUT_EVENT)
  }

  /** Bytes past the body are ignored. */
  function DecodeInputEvent(body: seq<byte>): Option<InputEventBody> {
    if |body| < Width(INPUT_EVENT) then None
    else
      var f := Unpack(body, INPUT_EVENT);
      FieldsFit(body, INPUT_EVENT);
      Some(InputEventBody(f[0], f[1], Signed(f[2], 2), Signed(f[3], 2), f[4], f[5]))
  }

  lemma {:induction false} FieldsFit(s: seq<byte>, widths: seq<nat>)
    requires |s| >= Width(widths)
    ensures Fit(Unpack(s, widths), widths)
  {
    if widths != [] {
      PutGet(s[..widths[0]]);
      FieldsFit(s[widths[0]..], widths[1..]);
    }
  }

  /** Encoding and decoding an input event undo each other, negative coordinates included, and nothing
      but a short body is refused. */
  lemma InputEventRoundTrip(b: InputEventBody, body: seq<byte>)
    ensures b.Valid() ==> DecodeInputEvent(EncodeInputEvent(b)) == Some(b)
    ensures DecodeInputEvent(body).Some? <==> |body| >= Width(INPUT_EVENT)
    ensures |body| == Width(INPUT_EVENT) ==>
              DecodeInputEvent(body).value.Valid() && EncodeInputEvent(DecodeInputEvent(body).value) == body
  {
    if b.Valid() {
      var fields := [b.kind, b.button, Unsigned(b.x, 2), Unsigned(b.y, 2), b.touchId, b.atMs];
      UnpackPack(fields, INPUT_EVENT, []);
      assert Pack(fields, INPUT_EVENT) + [] == Pack(fields, INPUT_EVENT);
    }
    if |body| == Width(INPUT_EVENT) {
      PackUnpack(body, INPUT_EVENT);
      var f := Unpack(body, INPUT_EVENT);
      assert [f[0], f[1], f[2], f[3], f[4], f[5]] == f;
    }
  }

  datatype TimeSyncBody = TimeSyncBody(utc: int, offset: int, validForMs: nat, flags: nat) {
    predicate Valid() {
      InRange(utc, 8) && InRange(offset, 2) && validForMs < Pow(4) && flags <= 1
    }
  }

  function EncodeTimeSync(b: TimeSyncBody): seq<byte>
    requires b.Valid()
  {
    Pack([Unsigned(b.utc, 8), Unsigned(b.offset, 2), b.validForMs, b.flags], TIME_SYNC)
  }

  /** Exactly the body, and no flag but the one there is. */
  function DecodeTimeSync(body: seq<byte>): Option<TimeSyncBody> {
    if |body| != Width(TIME_SYNC) then None
    else
      var f := Unpack(body, TIME_SYNC);
      FieldsFit(body, TIME_SYNC);
      if f[3] <= 1 then Some(TimeSyncBody(Signed(f[0], 8), Signed(f[1], 2), f[2], f[3])) else None
  }

  /** A time-sync body decodes exactly when it is the encoding of a request, and to that request. */
  lemma TimeSyncExact(b: TimeSyncBody, body: seq<byte>)
    ensures b.Valid() ==> DecodeTimeSync(EncodeTimeSync(b)) == Some(b)
    ensures DecodeTimeSync(body).Some? ==>
              DecodeTimeSync(body).value.Valid() && EncodeTimeSync(DecodeTimeSync(body).value) == body
  {
    if b.Valid() {
      var fields := [Unsigned(b.utc, 8), Unsigned(b.offset, 2), b.validForMs, b.flags];
      UnpackPack(fields, TIME_SYNC, []);
      assert Pack(fields, TIME_SYNC) + [] == Pack(fields, TIME_SYNC);
    }
    if DecodeTimeSync(body).Some? {
      PackUnpack(body, TIME_SYNC);
      var f := Unpack(body, TIME_SYNC);
      assert [f[0], f[1], f[2], f[3]] == f;
    }
  }

  datatype ScreenInfoBody = ScreenInfoBody(
    frameId: nat, width: nat, height: nat, format: nat, orientation: nat, totalBytes: nat, crc32: nat, atMs: nat)
  {
    function Fields(): seq<nat> {
      [frameId, width, height, format, orientation, totalBytes, crc32, atMs]
    }
  }

  function EncodeScreenInfo(b: ScreenInfoBody): seq<byte> {
    Pack(b.Fields(), SCREEN_INFO)
  }

  function DecodeScreenInfo(body: seq<byte>): Option<ScreenInfoBody> {
    if |body| < Width(SCREEN_INFO) then None
    else
      var f := Unpack(body, SCREEN_INFO);
      Some(ScreenInfoBody(f[0], f[1], f[2], f[3], f[4], f[5], f[6], f[7]))
  }

  /** The announcement of a screen says to the host what it said on the device, and a body of its exact
      length is the encoding of what it decodes to. */
  lemma ScreenInfoRoundTrip(b: ScreenInfoBody, body: seq<byte>)
    ensures Fit(b.Fields(), SCREEN_INFO) ==> DecodeScreenInfo(EncodeScreenInfo(b)) == Some(b)
    ensures |body| == Width(SCREEN_INFO) ==> EncodeScreenInfo(DecodeScreenInfo(body).value) == body
  {
    if Fit(b.Fields(), SCREEN_INFO) {
      UnpackPack(b.Fields(), SCREEN_INFO, []);
      assert Pack(b.Fields(), SCREEN_INFO) + [] == Pack(b.Fields(), SCREEN_INFO);
    }
    if |body| == Width(SCREEN_INFO) {
      PackUnpack(body, SCREEN_INFO);
      var f := Unpack(body, SCREEN_INFO);
      assert [f[0], f[1], f[2], f[3], f[4], f[5], f[6], f[7]] == f;
    }
  }

  const NAME_BYTES: nat := 24
  const HELLO_V1: nat := 49

  datatype HelloBody = HelloBody(version: byte, boardId: seq<byte>, build: seq<byte>, session: nat) {
    /** Both names end within their fields. */
    predicate Valid() {
      && |boardId| == |build| == NAME_BYTES && boardId[NAME_BYTES - 1] == 0 && build[NAME_BYTES - 1] == 0
      && session < Pow(4)
    }
  }

  function EncodeHello(b: HelloBody): seq<byte> {
    [b.version] + (b.boardId + (b.build + Put(b.session, 4)))
  }

  /** The older body, without a session, still decodes; names are cut so that they end. */
  function DecodeHello(body: seq<byte>): Option<HelloBody> {
    if |body| < HELLO_V1 then None
    else
      Some(HelloBody(body[0], body[1..24] + [0], body[25..48] + [0],
                     if |body| >= HELLO_V1 + 4 then Get(body[49..53]) else 0))
  }

  /** Hello survives the wire; one without its session reads as session 0 and is otherwise the same. */
  lemma HelloRoundTrip(b: HelloBody)
    requires b.Valid()
    ensures DecodeHello(EncodeHello(b)) == Some(b)
    ensures DecodeHello(EncodeHello(b)[..HELLO_V1]) == Some(b.(session := 0))
  {
    var s := EncodeHello(b);
    GetPut(b.session, 4);
    assert s[49..53] == Put(b.session, 4);
    assert s[1..24] + [0] == b.boardId && s[25..48] + [0] == b.build;
    assert s[..HELLO_V1][1..24] == s[1..24] && s[..HELLO_V1][25..48] == s[25..48];
  }

  // ---------------------------------------------------------------------------
  // The envelope.

  const MAX_BODY: nat := 182
  const ENVELOPE_BYTES: nat := 10
  const HEADER: seq<nat> := [1, 1, 2, 2, 2]

  datatype Envelope = Envelope(version: nat, cls: nat, req: nat, op: nat) {
    predicate Valid() {
      version < Pow(1) && cls < Pow(1) && req < Pow(2) && op < Pow(2)
    }
  }

  datatype Decoded = Decoded(envelope: Envelope, body: seq<byte>)

  function Header(e: Envelope, n: nat): (s: seq<byte>)
    ensures |s| == 8
  {
    Pack([e.version, e.cls, e.req, e.op, n], HEADER)
  }

  /** Header, checksum over header and body, body. */
  function Message(crc: seq<byte> -> nat, e: Envelope, body: seq<byte>): seq<byte> {
    Header(e, |body|) + (Put(crc(Header(e, |body|) + body), 2) + body)
  }

  function DecodeMessage(crc: seq<byte> -> nat, payload: seq<byte>): Option<Decoded> {
    if |payload| < ENVELOPE_BYTES then None
    else
      var f := Unpack(payload[..8], HEADER);
      var body := payload[ENVELOPE_BYTES..];
      if f[4] > MAX_BODY || |body| != f[4] || Get(payload[8..10]) != crc(payload[..8] + body) then None
      else Some(Decoded(Envelope(f[0], f[1], f[2], f[3]), body))
  }

  ghost predicate SixteenBits(crc: seq<byte> -> nat) {
    forall s :: crc(s) < Pow(2)
  }

  lemma MessageParts(crc: seq<byte> -> nat, e: Envelope, body: seq<byte>)
    ensures var m := Message(crc, e, body);
            && m[..8] == Header(e, |body|) && m[8..10] == Put(crc(Header(e, |body|) + body), 2) && m[10..] == body
  {
  }

  /** Every message that fits comes back from its encoding. */
  lemma MessageRoundTrip(crc: seq<byte> -> nat, e: Envelope, body: seq<byte>)
    requires SixteenBits(crc) && e.Valid() && |body| <= MAX_BODY
    ensures DecodeMessage(crc, Message(crc, e, body)) == Some(Decoded(e, body))
  {
    var header := Header(e, |body|);
    var fields := [e.version, e.cls, e.req, e.op, |body|];
    MessageParts(crc, e, body);
    UnpackPack(fields, HEADER, []);
    assert Pack(fields, HEADER) + [] == header;
    GetPut(crc(header + body), 2);
  }

  /** And nothing decodes but the encoding of what it decodes to. */
  lemma MessageExact(crc: seq<byte> -> nat, payload: seq<byte>)
    requires DecodeMessage(crc, payload).Some?
    ensures var d := DecodeMessage(crc, payload).value;
            d.envelope.Valid() && |d.body| <= MAX_BODY && Message(crc, d.envelope, d.body) == payload
  {
    var f := Unpack(payload[..8], HEADER);
    PackUnpack(payload[..8], HEADER);
    assert [f[0], f[1], f[2], f[3], f[4]] == f;
    PutGet(payload[8..10]);
    assert payload == payload[..8] + (payload[8..10] + payload[10..]);
  }

  /** All or nothing: the message is written whole where it fits, and otherwise nothing is. */
  method EncodeMessage(crc: seq<byte> -> nat, e: Envelope, body: seq<byte>, out: array<byte>) returns (n: nat)
    modifies out
    ensures n == 0 <==> |body| > MAX_BODY || out.Length < ENVELOPE_BYTES + |body|
    ensures n <= out.Length && (n == 0 ==> out[..] == old(out[..]))
    ensures n > 0 ==> out[..n] == Message(crc, e, body) && out[n..] == old(out[n..])
  {
    if |body| > MAX_BODY || out.Length < ENVELOPE_BYTES + |body| {
      return 0;
    }
    var header := Header(e, |body|);
    WriteAt(out, 0, header);
    PutBytes(out, 8, crc(header + body), 2);
    WriteAt(out, ENVELOPE_BYTES, body);
    n := ENVELOPE_BYTES + |body|;
    assert out[..n] == out[..8] + (out[8..10] + out[10..n]);
  }

  method WriteAt(out: array<byte>, at: nat, s: seq<byte>)
    requires at + |s| <= out.Length
    modifies out
    ensures out[..at] == old(out[..at]) && out[at..at + |s|] == s && out[at + |s|..] == old(out[at + |s|..])
  {
    for i := 0 to |s|
      invariant out[..at] == old(out[..at]) && out[at..at + i] == s[..i] && out[at + |s|..] == old(out[at + |s|..])
    {
      out[at + i] := s[i];
      assert out[at..at + i + 1] == out[at..at + i] + [s[i]];
    }
  }
}
