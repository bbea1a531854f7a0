/** The PNG file of sim/png_writer.cpp, and a reader for it written from the specifications:
    stored blocks of section 3.2.4 of RFC 1951 inside the zlib stream of section 2.2 of RFC 1950
    inside the chunks of the PNG specification. */
module Png {
  import opened Wrappers
  import opened Checksums

  /** Bytes recognised at the front of a stream, and what follows them. */
  datatype Read<+T> = Bad | Got(value: T, rest: seq<byte>)

  // ---------------------------------------------------------------------------
  // Big-endian words.

  function At(s: seq<byte>, i: nat): nat
    requires i < |s|
  {
    s[i]
  }

  function BigEndian(v: nat): (s: seq<byte>)
    requires v < 0x1_0000_0000
    ensures |s| == 4
  {
    [v / 0x100_0000, v / 0x1_0000 % 0x100, v / 0x100 % 0x100, v % 0x100]
  }

  function WordOf(s: seq<byte>): nat
    requires |s| == 4
  {
    At(s, 0) * 0x100_0000 + At(s, 1) * 0x1_0000 + At(s, 2) * 0x100 + At(s, 3)
  }

  lemma WordRoundTrip(v: nat)
    requires v < 0x1_0000_0000
    ensures WordOf(BigEndian(v)) == v
  {
    assert v / 0x100 / 0x100 == v / 0x1_0000 by { QuotientTwice(v, v / 0x1_0000); }
    assert v / 0x1_0000 / 0x100 == v / 0x100_0000;
  }

  lemma QuotientTwice(v: nat, q: nat)
    requires 0x1_0000 * q <= v < 0x1_0000 * q + 0x1_0000
    ensures v / 0x100 / 0x100 == q
  {
  }

  // ---------------------------------------------------------------------------
  // Stored blocks.

  const MAX_BLOCK: nat := 65535

  /** A reader of stored blocks: it stops at the first block marked final. */
  function Inflate(s: seq<byte>): Read<seq<byte>> {
    if |s| < 5 || At(s, 0) / 2 % 4 != 0 then Bad
    else
      var len := At(s, 1) + 0x100 * At(s, 2);
      if At(s, 3) + 0x100 * At(s, 4) != 0xFFFF - len || |s| < 5 + len then Bad
      else if At(s, 0) % 2 == 1 then Got(s[5..5 + len], s[5 + len..])
      else
        match Inflate(s[5 + len..])
        case Bad => Bad
        case Got(data, rest) => Got(s[5..5 + len] + data, rest)
  }

  /** Deflate, a window it allows, the check of the two bytes, and no dictionary. */
  predicate ZlibHeader(cmf: nat, flags: nat) {
    cmf % 16 == 8 && cmf / 16 <= 7 && (cmf * 0x100 + flags) % 31 == 0 && flags / 32 % 2 == 0
  }

  /** The stream of section 2.2 of RFC 1950: header, blocks, checksum, and nothing after it. */
  function ZlibDecode(s: seq<byte>): Option<seq<byte>> {
    if |s| < 2 || !ZlibHeader(At(s, 0), At(s, 1)) then None
    else
      match Inflate(s[2..])
      case Bad => None
      case Got(data, tail) => if |tail| == 4 && WordOf(tail) == Adler32(data) then Some(data) else None
  }

  function BlockHeader(len: nat, last: bool): (s: seq<byte>)
    requires len <= MAX_BLOCK
    ensures |s| == 5
  {
    [if last then 1 else 0, len % 0x100, len / 0x100, (MAX_BLOCK - len) % 0x100, (MAX_BLOCK - len) / 0x100]
  }

  function Blocks(raw: seq<byte>): seq<byte> {
    if |raw| <= MAX_BLOCK then BlockHeader(|raw|, true) + raw
    else BlockHeader(MAX_BLOCK, false) + raw[..MAX_BLOCK] + Blocks(raw[MAX_BLOCK..])
  }

  lemma HeaderReads(len: nat, last: bool)
    requires len <= MAX_BLOCK
    ensures var h := BlockHeader(len, last);
            && At(h, 0) / 2 % 4 == 0 && (At(h, 0) % 2 == 1) == last
            && At(h, 1) + 0x100 * At(h, 2) == len && At(h, 3) + 0x100 * At(h, 4) == MAX_BLOCK - len
  {
  }

  lemma InflateOne(data: seq<byte>, last: bool, tail: seq<byte>)
    requires |data| <= MAX_BLOCK
    ensures Inflate(BlockHeader(|data|, last) + data + tail) ==
            if last then Got(data, tail)
            else match Inflate(tail) { case Bad => Bad case Got(more, rest) => Got(data + more, rest) }
  {
    var h := BlockHeader(|data|, last);
    var s := h + data + tail;
    HeaderReads(|data|, last);
    assert At(s, 0) == At(h, 0) && At(s, 1) == At(h, 1) && At(s, 2) == At(h, 2) && At(s, 3) == At(h, 3)
           && At(s, 4) == At(h, 4);
    assert s[5..5 + |data|] == data && s[5 + |data|..] == tail;
  }

  lemma {:induction false} InflateBlocks(raw: seq<byte>, tail: seq<byte>)
    ensures Inflate(Blocks(raw) + tail) == Got(raw, tail)
    decreases |raw|
  {
    if |raw| <= MAX_BLOCK {
      InflateOne(raw, true, tail);
    } else {
      var first, more := raw[..MAX_BLOCK], raw[MAX_BLOCK..];
      InflateBlocks(more, tail);
      InflateOne(first, false, Blocks(more) + tail);
      assert BlockHeader(MAX_BLOCK, false) + first + Blocks(more) + tail
          == BlockHeader(MAX_BLOCK, false) + first + (Blocks(more) + tail);
      assert first + more == raw;
    }
  }

  /** A reader recovers exactly what was written: every byte of every block, the one final block
      where the writer stopped, and the checksum of just those bytes. */
  method ZlibStored(raw: seq<byte>) returns (out: seq<byte>)
    ensures ZlibDecode(out) == Some(raw)
    ensures |out| == |raw| + 5 * (if raw == [] then 1 else (|raw| + MAX_BLOCK - 1) / MAX_BLOCK) + 6
  {
    var blocks := StoredBlocks(raw);
    var adler := AdlerOf(raw);
    out := [0x78, 0x01] + (blocks + BigEndian(adler));
    StreamReads(raw, out);
  }

  lemma StreamReads(raw: seq<byte>, out: seq<byte>)
    requires out == [0x78, 0x01] + (Blocks(raw) + BigEndian(Adler32(raw)))
    ensures ZlibDecode(out) == Some(raw)
  {
    InflateBlocks(raw, BigEndian(Adler32(raw)));
    WordRoundTrip(Adler32(raw));
    HeaderThen(raw, Blocks(raw) + BigEndian(Adler32(raw)), out);
  }

  lemma HeaderThen(raw: seq<byte>, body: seq<byte>, out: seq<byte>)
    requires out == [0x78, 0x01] + body && Inflate(body) == Got(raw, BigEndian(Adler32(raw)))
    requires WordOf(BigEndian(Adler32(raw))) == Adler32(raw)
    ensures ZlibDecode(out) == Some(raw)
  {
    assert out[2..] == body;
    HeaderFits(At(out, 0), At(out, 1));
  }

  lemma HeaderFits(cmf: nat, flags: nat)
    requires cmf == 0x78 && flags == 0x01
    ensures ZlibHeader(cmf, flags)
  {
  }

  method StoredBlocks(raw: seq<byte>) returns (out: seq<byte>)
    ensures out == Blocks(raw)
    ensures |out| == |raw| + 5 * (if raw == [] then 1 else (|raw| + MAX_BLOCK - 1) / MAX_BLOCK)
  {
    out := [];
    var offset, more := 0, true;
    ghost var count := 0;
    while more
      invariant offset <= |raw| && (more ==> offset == MAX_BLOCK * count)
      invariant more ==> out + Blocks(raw[offset..]) == Blocks(raw) && (offset < |raw| || raw == [])
      invariant !more ==> out == Blocks(raw)
      invariant |out| == offset + 5 * count
      invariant !more ==> offset == |raw| && count == if raw == [] then 1 else (|raw| + MAX_BLOCK - 1) / MAX_BLOCK
      decreases more, |raw| - offset
    {
      var remaining := |raw| - offset;
      var block := if remaining > MAX_BLOCK then MAX_BLOCK else remaining;
      var last := offset + block >= |raw|;
      ghost var was := out;
      assert raw[offset..][..block] == raw[offset..offset + block];
      assert raw[offset..][block..] == raw[offset + block..];
      out := out + (BlockHeader(block, last) + raw[offset..offset + block]);
      offset, count := offset + block, count + 1;
      more := offset < |raw|;
      if more {
        Associate(was, BlockHeader(block, last) + raw[offset - block..offset], Blocks(raw[offset..]));
      }
    }
  }

  lemma Associate(a: seq<byte>, b: seq<byte>, c: seq<byte>)
    ensures (a + b) + c == a + (b + c)
  {
  }

  // ---------------------------------------------------------------------------
  // Chunks and the file.

  const SIGNATURE: seq<byte> := [0x89, 0x50, 0x4E, 0x47, 0x0D, 0x0A, 0x1A, 0x0A]
  const IHDR: seq<byte> := [0x49, 0x48, 0x44, 0x52]
  const IDAT: seq<byte> := [0x49, 0x44, 0x41, 0x54]
  const IEND: seq<byte> := [0x49, 0x45, 0x4E, 0x44]

  /** The type of a chunk by its four letters. */
  function Letters(name: string): seq<byte>
    requires forall i :: 0 <= i < |name| ==> name[i] as nat < 0x100
  {
    seq(|name|, i requires 0 <= i < |name| => name[i] as nat)
  }

  lemma TypesSpell()
    ensures Letters("IHDR") == IHDR && Letters("IDAT") == IDAT && Letters("IEND") == IEND
  {
  }

  /** A reader of one chunk of the given type: the length, the type, the payload, and a CRC-32
      over type and payload that has to agree. */
  function ReadChunk(kind: seq<byte>, s: seq<byte>): Read<seq<byte>> {
    if |s| < 12 then Bad
    else
      var len := WordOf(s[..4]);
      if |s| < 12 + len || s[4..8] != kind then Bad
      else if WordOf(s[8 + len..12 + len]) != Crc32(s[4..8 + len], 0) as nat then Bad
      else Got(s[8..8 + len], s[12 + len..])
  }

  /** The last field of a chunk over type and payload. */
  function CrcField(body: seq<byte>): (s: seq<byte>)
    ensures |s| == 4
  {
    WordBytes(Crc32(body, 0))
  }

  function WordBytes(w: bv32): (s: seq<byte>)
    ensures |s| == 4
  {
    BigEndian(w as nat)
  }

  /** The length field carries 32 bits, so a longer payload is not announced as what it is. */
  function Chunk(kind: seq<byte>, payload: seq<byte>): (s: seq<byte>)
    ensures |s| == |kind| + |payload| + 8
  {
    BigEndian(|payload| % 0x1_0000_0000) + (kind + payload + CrcField(kind + payload))
  }

  method PushChunk(out: seq<byte>, kind: seq<byte>, payload: seq<byte>) returns (after: seq<byte>)
    ensures after == out + Chunk(kind, payload)
  {
    var crc := Crc32Of(kind + payload);
    after := out + (BigEndian(|payload| % 0x1_0000_0000) + (kind + payload + WordBytes(crc)));
  }

  lemma ChunkReads(kind: seq<byte>, payload: seq<byte>, rest: seq<byte>)
    requires |kind| == 4 && |payload| < 0x1_0000_0000
    ensures ReadChunk(kind, Chunk(kind, payload) + rest) == Got(payload, rest)
  {
    var n, crc := |payload|, CrcField(kind + payload);
    WordRoundTrip(Crc32(kind + payload, 0) as nat);
    assert Chunk(kind, payload) == BigEndian(n) + (kind + payload + crc);
    WordRoundTrip(n);
    FieldsOf(BigEndian(n), kind, payload, crc, rest);
  }

  lemma FieldsOf(length: seq<byte>, kind: seq<byte>, payload: seq<byte>, crc: seq<byte>, rest: seq<byte>)
    requires |length| == |kind| == |crc| == 4
    ensures var n, s := |payload|, length + (kind + payload + crc) + rest;
            && s[..4] == length && s[4..8] == kind && s[4..8 + n] == kind + payload
            && s[8..8 + n] == payload && s[8 + n..12 + n] == crc && s[12 + n..] == rest
  {
  }

  // ---------------------------------------------------------------------------
  // Rows.

  /** A reader of rows under filter type 0: a zero byte and then `stride` bytes, until the end. */
  function Unfilter(raw: seq<byte>, stride: nat): Option<seq<byte>> {
    if raw == [] then Some([])
    else if |raw| < 1 + stride || raw[0] != 0 then None
    else
      match Unfilter(raw[1 + stride..], stride)
      case None => None
      case Some(more) => Some(raw[1..1 + stride] + more)
  }

  function Filtered(pixels: seq<byte>, stride: nat, rows: nat): seq<byte>
    requires |pixels| == rows * stride
    decreases rows
  {
    if rows == 0 then [] else
      OneRowLess(rows, stride);
      [0] + pixels[..stride] + Filtered(pixels[stride..], stride, rows - 1)
  }

  lemma OneRowLess(rows: nat, stride: nat)
    requires rows > 0
    ensures rows * stride == stride + (rows - 1) * stride && (rows - 1) * stride >= 0
  {
  }

  lemma {:induction false} UnfilterRestores(pixels: seq<byte>, stride: nat, rows: nat)
    requires |pixels| == rows * stride
    ensures Unfilter(Filtered(pixels, stride, rows), stride) == Some(pixels)
    ensures |Filtered(pixels, stride, rows)| == rows + |pixels|
    decreases rows
  {
    if rows == 0 {
      assert pixels == [];
    } else {
      OneRowLess(rows, stride);
      UnfilterRestores(pixels[stride..], stride, rows - 1);
      var raw, more := Filtered(pixels, stride, rows), Filtered(pixels[stride..], stride, rows - 1);
      assert raw[1..1 + stride] == pixels[..stride] && raw[1 + stride..] == more;
      assert pixels[..stride] + pixels[stride..] == pixels;
    }
  }

  method FilterRows(pixels: seq<byte>, stride: nat, rows: nat) returns (raw: seq<byte>)
    requires |pixels| == rows * stride
    ensures raw == Filtered(pixels, stride, rows)
  {
    raw := [];
    var at := 0;
    for y := 0 to rows
      invariant at <= |pixels| && |pixels[at..]| == (rows - y) * stride
      invariant raw + Filtered(pixels[at..], stride, rows - y) == Filtered(pixels, stride, rows)
    {
      OneRowLess(rows - y, stride);
      assert pixels[at..][..stride] == pixels[at..at + stride] && pixels[at..][stride..] == pixels[at + stride..];
      Associate(raw, [0] + pixels[at..at + stride], Filtered(pixels[at + stride..], stride, rows - y - 1));
      raw := raw + ([0] + pixels[at..at + stride]);
      at := at + stride;
    }
  }

  // ---------------------------------------------------------------------------
  // The file.

  datatype Image = Image(width: nat, height: nat, pixels: seq<byte>)

  /** Eight bits a sample, true colour, deflate, the one filter method, not interlaced. */
  const HEADER_TAIL: seq<byte> := [8, 2, 0, 0, 0]

  /** The header and the zlib stream of a file that is exactly the signature of section 5.2 of the PNG
      specification, IHDR, IDAT and IEND. */
  function ReadFile(s: seq<byte>): Option<(seq<byte>, seq<byte>)> {
    if |s| < 8 || s[..8] != [137, 80, 78, 71, 13, 10, 26, 10] then None
    else
      match ReadChunk(Letters("IHDR"), s[8..])
      case Bad => None
      case Got(header, afterHeader) =>
        match ReadChunk(Letters("IDAT"), afterHeader)
        case Bad => None
        case Got(data, afterData) =>
          if ReadChunk(Letters("IEND"), afterData) == Got([], []) then Some((header, data)) else None
  }

  /** How many samples a pixel has, by the colour types of section 11.2.2. */
  function Samples(colourType: nat): nat {
    match colourType
    case 2 => 3
    case 4 => 2
    case 6 => 4
    case _ => 1
  }

  /** A reader of pictures with eight bits a sample, no interlace, and the one compression and the one
      filter method there are. */
  function PngDecode(s: seq<byte>): Option<Image> {
    match ReadFile(s)
    case None => None
    case Some((header, data)) =>
      if |header| != 13 || At(header, 8) != 8 || At(header, 10) != 0 || At(header, 11) != 0 || At(header, 12) != 0
      then None
      else Pixels(WordOf(header[..4]), WordOf(header[4..8]), Samples(At(header, 9)), ZlibDecode(data))
  }

  function Pixels(width: nat, height: nat, samples: nat, raw: Option<seq<byte>>): Option<Image> {
    if raw == None || Unfilter(raw.value, width * samples) == None then None
    else Some(Image(width, height, Unfilter(raw.value, width * samples).value))
  }

  /** How long the zlib stream of an image is. */
  function StreamSize(width: nat, height: nat): nat {
    var raw := height + height * (width * 3);
    raw + 5 * (if raw == 0 then 1 else (raw + MAX_BLOCK - 1) / MAX_BLOCK) + 6
  }

  /** Whatever the pixels, a reader of the file gets back the same picture, as long as its stream
      fits the length field of one chunk. */
  method WritePngRgb(pixels: seq<byte>, width: nat, height: nat) returns (png: Option<seq<byte>>)
    requires width < 0x1_0000_0000 && height < 0x1_0000_0000 && |pixels| == height * (width * 3)
    ensures png == None <==> width == 0 || height == 0
    ensures png.Some? && StreamSize(width, height) < 0x1_0000_0000 ==>
              PngDecode(png.value) == Some(Image(width, height, pixels))
  {
    if width == 0 || height == 0 {
      return None;
    }
    var stream := WriteStream(pixels, width, height);
    var file := WriteChunks(BigEndian(width) + BigEndian(height) + HEADER_TAIL, stream);
    if StreamSize(width, height) < 0x1_0000_0000 {
      ImageReads(file, width, height, stream);
    }
    png := Some(file);
  }

  method WriteStream(pixels: seq<byte>, width: nat, height: nat) returns (stream: seq<byte>)
    requires |pixels| == height * (width * 3)
    ensures Pixels(width, height, 3, ZlibDecode(stream)) == Some(Image(width, height, pixels))
    ensures |stream| == StreamSize(width, height)
  {
    var raw := FilterRows(pixels, width * 3, height);
    UnfilterRestores(pixels, width * 3, height);
    stream := ZlibStored(raw);
  }

  lemma ImageReads(file: seq<byte>, width: nat, height: nat, stream: seq<byte>)
    requires width < 0x1_0000_0000 && height < 0x1_0000_0000
    requires ReadFile(file) == Some((BigEndian(width) + BigEndian(height) + HEADER_TAIL, stream))
    ensures PngDecode(file) == Pixels(width, height, 3, ZlibDecode(stream))
  {
    WordRoundTrip(width);
    WordRoundTrip(height);
    HeaderFields(BigEndian(width), BigEndian(height));
  }

  lemma HeaderFields(w: seq<byte>, h: seq<byte>)
    requires |w| == |h| == 4
    ensures var header := w + h + HEADER_TAIL;
            && |header| == 13 && header[..4] == w && header[4..8] == h
            && At(header, 8) == 8 && At(header, 9) == 2
            && At(header, 10) == 0 && At(header, 11) == 0 && At(header, 12) == 0
  {
  }

  lemma FileReads(png: seq<byte>, header: seq<byte>, stream: seq<byte>)
    requires |header| < 0x1_0000_0000 && |stream| < 0x1_0000_0000
    requires |png| >= 8 && png[..8] == SIGNATURE
             && png[8..] == Chunk(IHDR, header) + (Chunk(IDAT, stream) + (Chunk(IEND, []) + []))
    ensures ReadFile(png) == Some((header, stream))
  {
    TypesSpell();
    ChunkReads(IHDR, header, Chunk(IDAT, stream) + (Chunk(IEND, []) + []));
    ChunkReads(IDAT, stream, Chunk(IEND, []) + []);
    ChunkReads(IEND, [], []);
  }

  lemma FourPieces(a: seq<byte>, b: seq<byte>, c: seq<byte>, d: seq<byte>)
    ensures (a + b + c + d)[|a|..] == b + (c + (d + []))
  {
  }

  method WriteChunks(header: seq<byte>, stream: seq<byte>) returns (png: seq<byte>)
    requires |header| == 13
    ensures |stream| < 0x1_0000_0000 ==> ReadFile(png) == Some((header, stream))
  {
    png := PushChunk(SIGNATURE, IHDR, header);
    png := PushChunk(png, IDAT, stream);
    png := PushChunk(png, IEND, []);
    FourPieces(SIGNATURE, Chunk(IHDR, header), Chunk(IDAT, stream), Chunk(IEND, []));
    if |stream| < 0x1_0000_0000 {
      FileReads(png, header, stream);
    }
  }
}
