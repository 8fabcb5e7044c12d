/**
 The WebSocket frame codec: sections 5.2 and 5.3 of RFC 6455 without fragmentation.
 internal/gateway/wsconn/conn.go:96-225 for the server, cmd/agensense-smoke/main.go:889-915 for the masking client.
 Reads may end early or find a bad frame, and writes may fail at any byte.
 */
module WebSocket {
  import opened Common
  import opened Bytes
  import opened Bits

  const OP_PING: byte := 9
  const OP_PONG: byte := 10

  const MAX_PAYLOAD := 16 * 1024 * 1024

  datatype Frame = Frame(opcode: byte, payload: seq<byte>)

  type Key = Tag

  /** The byte of the key that masks the i-th byte of a payload. */
  function KeyAt(key: Key, i: nat): byte {
    if i % 4 == 0 then key.a else if i % 4 == 1 then key.b else if i % 4 == 2 then key.c else key.d
  }

  // ---- Masking ----

  /** Byte i of masked data is byte i of the data, exclusive-or byte i % 4 of the key. */
  ghost predicate MaskedBy(data: seq<byte>, key: seq<byte>, masked: seq<byte>)
    requires |key| == 4
  {
    && |masked| == |data|
    && forall i :: 0 <= i < |data| ==> IsXor(masked[i], data[i], key[i % 4])
  }

  lemma MaskedAt(payload: seq<byte>, key: Key, i: nat)
    requires i < |payload|
    ensures IsXor(Masked(payload, key)[i], payload[i], [key.a, key.b, key.c, key.d][i % 4])
  {
    KeyByteAt(key, i);
    XorIsBitwise(payload[i], KeyAt(key, i));
  }

  lemma MaskedIsMasked(payload: seq<byte>, key: Key)
    ensures MaskedBy(payload, [key.a, key.b, key.c, key.d], Masked(payload, key))
  {
    forall i | 0 <= i < |payload|
      ensures IsXor(Masked(payload, key)[i], payload[i], [key.a, key.b, key.c, key.d][i % 4])
    {
      MaskedAt(payload, key, i);
    }
  }

  lemma KeyByteAt(key: Key, i: nat)
    ensures KeyAt(key, i) == [key.a, key.b, key.c, key.d][i % 4]
  {
  }

  /** And there is only one way to mask. */
  lemma OneWayToMask(data: seq<byte>, key: seq<byte>, a: seq<byte>, b: seq<byte>)
    requires |key| == 4 && MaskedBy(data, key, a) && MaskedBy(data, key, b)
    ensures a == b
  {
    forall i | 0 <= i < |data| ensures a[i] == b[i] {
      OneXor(a[i], b[i], data[i], key[i % 4]);
    }
  }

  function Masked(payload: seq<byte>, key: Key): (masked: seq<byte>)
    ensures |masked| == |payload|
  {
    seq(|payload|, i requires 0 <= i < |payload| => Xor(payload[i], KeyAt(key, i)))
  }

  /** Unmasking is masking again. */
  lemma MaskTwice(payload: seq<byte>, key: Key)
    ensures Masked(Masked(payload, key), key) == payload
  {
    forall i | 0 <= i < |payload| ensures Masked(Masked(payload, key), key)[i] == payload[i] {
      XorTwice(payload[i], KeyAt(key, i));
    }
  }

  // ---- Writing ----

  /** 0x80 | b */
  function WithTopBit(b: byte): byte {
    if b < 128 then b + 128 else b
  }

  function LengthField(masked: bool, n: nat): seq<byte> {
    var top: byte := if masked then 128 else 0;
    if n < 126 then [top + n as byte]
    else if n <= 0xFFFF then [top + 126] + BE(n, 2)
    else [top + 127] + BE(n, 8)
  }

  /** A frame on the wire; a client passes its masking key. */
  function Encoded(f: Frame, key: Option<Key>): seq<byte> {
    [WithTopBit(f.opcode)] + LengthField(key.Some?, |f.payload|)
    + match key { case None => f.payload case Some(k) => k.Bytes() + Masked(f.payload, k) }
  }

  /** writeClientFrame */
  method WriteClientFrame(opcode: byte, payload: seq<byte>, mask: Key) returns (frame: seq<byte>)
    ensures frame == Encoded(Frame(opcode, payload), Some(mask))
  {
    var header := [WithTopBit(opcode)];
    if |payload| < 126 {
      header := header + [128 + |payload| as byte];
    } else if |payload| <= 0xFFFF {
      header := header + ([128 + 126] + BE(|payload|, 2));
    } else {
      header := header + ([128 + 127] + BE(|payload|, 8));
    }
    var masked := new byte[|payload|];
    for i := 0 to |payload|
      invariant forall k :: 0 <= k < i ==> masked[k] == Xor(payload[k], KeyAt(mask, k))
    {
      masked[i] := Xor(payload[i], KeyAt(mask, i));
    }
    assert masked[..] == Masked(payload, mask);
    frame := header + (mask.Bytes() + masked[..]);
  }

  // ---- Reading ----

  datatype ReadError = EndOfInput | Fragmented | TooLarge | PongNotWritten

  /** What the bytes after the opcode say: whether there is a mask, and how long the payload is. */
  datatype Length = Length(masked: bool, size: nat, rest: seq<byte>)

  function ParseLength(s: seq<byte>): Result<Length, ReadError> {
    if s == [] then Err(EndOfInput)
    else
      var masked, short, rest := s[0] >= 128, s[0] as int % 128, s[1..];
      if short == 126 then
        if |rest| < 2 then Err(EndOfInput) else CheckLength(masked, UBE(rest[..2]), rest[2..])
      else if short == 127 then
        if |rest| < 8 then Err(EndOfInput) else CheckLength(masked, UBE(rest[..8]), rest[8..])
      else CheckLength(masked, short, rest)
  }

  function CheckLength(masked: bool, size: nat, rest: seq<byte>): Result<Length, ReadError> {
    if size > MAX_PAYLOAD then Err(TooLarge) else Ok(Length(masked, size, rest))
  }

  datatype Read = Read(frame: Frame, rest: seq<byte>)

  function ParsePayload(opcode: byte, l: Length): Result<Read, ReadError> {
    if l.masked then
      if |l.rest| < 4 then Err(EndOfInput)
      else
        var key, rest := Tag(l.rest[0], l.rest[1], l.rest[2], l.rest[3]), l.rest[4..];
        if |rest| < l.size then Err(EndOfInput)
        else Ok(Read(Frame(opcode, Masked(rest[..l.size], key)), rest[l.size..]))
    else if |l.rest| < l.size then Err(EndOfInput)
    else Ok(Read(Frame(opcode, l.rest[..l.size]), l.rest[l.size..]))
  }

  function ParseFrame(s: seq<byte>): (r: Result<Read, ReadError>)
    ensures r.Ok? ==> |r.value.rest| < |s|
  {
    if s == [] then Err(EndOfInput)
    else if s[0] < 128 then Err(Fragmented)
    else
      var l := ParseLength(s[1..]);
      if l.Err? then Err(l.error) else ParsePayload((s[0] as int % 16) as byte, l.value)
  }

  /** The length field is read back, and refused above sixteen mebibytes. */
  lemma LengthRoundTrip(masked: bool, n: nat, rest: seq<byte>)
    requires n < 0x8000_0000_0000_0000
    ensures ParseLength(LengthField(masked, n) + rest) == CheckLength(masked, n, rest)
  {
    var field := LengthField(masked, n);
    var s := field + rest;
    assert s[0] == field[0];
    Pow256Values();
    if n < 126 {
      assert s[1..] == rest;
    } else if n <= 0xFFFF {
      BERoundTrip(n, 2);
      assert s[1..] == BE(n, 2) + rest;
      assert s[1..][..2] == BE(n, 2) && s[1..][2..] == rest;
    } else {
      BERoundTrip(n, 8);
      assert s[1..] == BE(n, 8) + rest;
      assert s[1..][..8] == BE(n, 8) && s[1..][8..] == rest;
    }
  }

  lemma PayloadRoundTrip(opcode: byte, payload: seq<byte>, key: Option<Key>, rest: seq<byte>)
    ensures var body := match key { case None => payload case Some(k) => k.Bytes() + Masked(payload, k) };
            ParsePayload(opcode, Length(key.Some?, |payload|, body + rest)) == Ok(Read(Frame(opcode, payload), rest))
  {
    if key.Some? {
      var k := key.value;
      var s := k.Bytes() + Masked(payload, k) + rest;
      assert s[4..] == Masked(payload, k) + rest;
      assert s[4..][..|payload|] == Masked(payload, k) && s[4..][|payload|..] == rest;
      MaskTwice(payload, k);
    } else {
      assert (payload + rest)[..|payload|] == payload && (payload + rest)[|payload|..] == rest;
    }
  }

  lemma HeadAndTail(head: byte, field: seq<byte>, body: seq<byte>, rest: seq<byte>)
    ensures var s := [head] + field + body + rest;
            s[0] == head && s[1..] == field + (body + rest)
  {
  }

  /** The low four bits of the opcode and the whole payload survive, under any mask, up to sixteen mebibytes. */
  lemma FrameRoundTrip(f: Frame, key: Option<Key>, rest: seq<byte>)
    requires |f.payload| < 0x8000_0000_0000_0000
    ensures ParseFrame(Encoded(f, key) + rest)
         == if |f.payload| > MAX_PAYLOAD then Err(TooLarge)
            else Ok(Read(Frame((f.opcode as int % 16) as byte, f.payload), rest))
  {
    var body := match key { case None => f.payload case Some(k) => k.Bytes() + Masked(f.payload, k) };
    HeadAndTail(WithTopBit(f.opcode), LengthField(key.Some?, |f.payload|), body, rest);
    LengthRoundTrip(key.Some?, |f.payload|, body + rest);
    PayloadRoundTrip((f.opcode as int % 16) as byte, f.payload, key, rest);
    assert WithTopBit(f.opcode) as int % 16 == f.opcode as int % 16;
  }

  /** A frame that can be sent and read back: a four-bit opcode, and a payload within the limit. */
  ghost predicate Sendable(f: Frame) {
    f.opcode < 16 && |f.payload| <= MAX_PAYLOAD
  }

  // ---- The layout of a frame, as the standard draws it ----

  /** Where the payload length ends, and with it the part of the header before the key. */
  function LengthEnd(s: seq<byte>): nat
    requires |s| >= 2
  {
    if s[1] % 128 == 126 then 4 else if s[1] % 128 == 127 then 10 else 2
  }

  /** The payload length that the header announces, most significant byte first. */
  function Announced(s: seq<byte>): nat
    requires |s| >= 2 && |s| >= LengthEnd(s)
  {
    if s[1] % 128 == 126 then 256 * s[2] as int + s[3] as int
    else if s[1] % 128 == 127 then
      0x100_0000_0000_0000 * s[2] as int + 0x1_0000_0000_0000 * s[3] as int
      + 0x100_0000_0000 * s[4] as int + 0x1_0000_0000 * s[5] as int
      + 0x100_0000 * s[6] as int + 0x1_0000 * s[7] as int + 256 * s[8] as int + s[9] as int
    else (s[1] % 128) as int
  }

  ghost predicate HasHeader(s: seq<byte>) {
    |s| >= 2 && s[0] >= 128 && |s| >= LengthEnd(s)
  }

  /** The bytes begin with an unfragmented frame of this opcode and payload, and go on with `rest`. */
  ghost predicate StartsWithFrame(s: seq<byte>, f: Frame, rest: seq<byte>) {
    && HasHeader(s)
    && f.opcode == s[0] % 16 && |f.payload| == Announced(s)
    && var keyed := s[1] >= 128;
       var at := LengthEnd(s) + if keyed then 4 else 0;
       && |s| == at + |f.payload| + |rest| && rest == s[at + |f.payload|..]
       && var sent := s[at..at + |f.payload|];
          if keyed then MaskedBy(sent, s[at - 4..at], f.payload) else f.payload == sent
  }

  lemma BigEndian2(s: seq<byte>)
    requires |s| == 2
    ensures UBE(s) == 256 * s[0] as int + s[1] as int
  {
    assert UBE(s[..1]) == 0x100 * UBE(s[..1][..0]) + s[0] as int;
  }

  lemma BigEndian4(s: seq<byte>)
    requires |s| >= 4
    ensures UBE(s) == 0x1_0000_0000 * UBE(s[..|s| - 4]) + 0x100_0000 * s[|s| - 4] as int + 0x1_0000 * s[|s| - 3] as int
                      + 256 * s[|s| - 2] as int + s[|s| - 1] as int
  {
    var n := |s|;
    var a, b, c := s[..n - 1], s[..n - 2], s[..n - 3];
    assert a[..n - 2] == b && b[..n - 3] == c && c[..n - 4] == s[..n - 4];
    assert UBE(a) == 0x100 * UBE(b) + s[n - 2] as int;
    assert UBE(b) == 0x100 * UBE(c) + s[n - 3] as int;
    assert UBE(c) == 0x100 * UBE(s[..n - 4]) + s[n - 4] as int;
  }

  lemma BigEndian8(s: seq<byte>)
    requires |s| == 8
    ensures UBE(s)
            == 0x100_0000_0000_0000 * s[0] as int + 0x1_0000_0000_0000 * s[1] as int
               + 0x100_0000_0000 * s[2] as int + 0x1_0000_0000 * s[3] as int
               + 0x100_0000 * s[4] as int + 0x1_0000 * s[5] as int + 256 * s[6] as int + s[7] as int
  {
    BigEndian4(s);
    BigEndian4(s[..4]);
    assert s[..4][..0] == [];
  }

  /** The length read is the one announced, and the reading goes on behind it. */
  lemma LengthIsAnnounced(s: seq<byte>)
    requires |s| >= 2
    ensures ParseLength(s[1..])
            == if |s| < LengthEnd(s) then Err(EndOfInput)
               else CheckLength(s[1] >= 128, Announced(s), s[LengthEnd(s)..])
  {
    var rest := s[1..][1..];
    assert rest == s[2..];
    if s[1] % 128 == 126 && |s| >= 4 {
      assert rest[..2] == s[2..4] && rest[2..] == s[4..];
      BigEndian2(s[2..4]);
    } else if s[1] % 128 == 127 && |s| >= 10 {
      assert rest[..8] == s[2..10] && rest[8..] == s[10..];
      BigEndian8(s[2..10]);
    }
  }

  lemma BodyIsPayload(s: seq<byte>, h: nat, n: nat, keyed: bool, opcode: byte)
    requires h <= |s|
    ensures var at := h + if keyed then 4 else 0;
            match ParsePayload(opcode, Length(keyed, n, s[h..]))
            case Err(e) => e == EndOfInput && |s| < at + n
            case Ok(read) =>
              && |s| >= at + n && read.rest == s[at + n..] && read.frame.opcode == opcode && |read.frame.payload| == n
              && if keyed then MaskedBy(s[at..at + n], s[at - 4..at], read.frame.payload) else read.frame.payload == s[at..at + n]
  {
    var after := s[h..];
    if keyed && |after| >= 4 {
      var key := Tag(after[0], after[1], after[2], after[3]);
      assert s[h..h + 4] == [key.a, key.b, key.c, key.d] && after[4..] == s[h + 4..];
      if |s| >= h + 4 + n {
        assert after[4..][..n] == s[h + 4..h + 4 + n] && after[4..][n..] == s[h + 4 + n..];
        MaskedIsMasked(s[h + 4..h + 4 + n], key);
      }
    } else if !keyed && |after| >= n {
      assert after[..n] == s[h..h + n] && after[n..] == s[h + n..];
    }
  }

  /**
   Reading one frame, in terms of the bytes alone: it succeeds with a frame if and only if the bytes begin with it and
   it is no longer than sixteen mebibytes; a first byte without its top bit is a fragment; a longer frame is refused
   as soon as its length is there; and anything else ends too early.
   */
  lemma FrameIsOnTheWire(s: seq<byte>)
    ensures match ParseFrame(s)
            case Ok(read) => StartsWithFrame(s, read.frame, read.rest) && Announced(s) <= 16_777_216
            case Err(Fragmented) => s != [] && s[0] < 128
            case Err(TooLarge) => HasHeader(s) && Announced(s) > 16_777_216
            case Err(EndOfInput) =>
              && (s == [] || s[0] >= 128)
              && (HasHeader(s) ==> Announced(s) <= 16_777_216)
              && forall f, rest :: !StartsWithFrame(s, f, rest)
            case Err(PongNotWritten) => false
  {
    if |s| >= 2 && s[0] >= 128 {
      LengthIsAnnounced(s);
      if HasHeader(s) && Announced(s) <= MAX_PAYLOAD {
        BodyIsPayload(s, LengthEnd(s), Announced(s), s[1] >= 128, s[0] % 16);
      }
    }
  }

  /** The bytes begin with one frame at most. */
  lemma FrameIsUnique(s: seq<byte>, f: Frame, rest: seq<byte>, g: Frame, left: seq<byte>)
    requires StartsWithFrame(s, f, rest) && StartsWithFrame(s, g, left)
    ensures f == g && rest == left
  {
    if s[1] >= 128 {
      var at := LengthEnd(s) + 4;
      OneWayToMask(s[at..at + |f.payload|], s[at - 4..at], f.payload, g.payload);
    }
  }

  /** A frame as it is written: final, with its opcode and the shortest length form, the key, and its payload masked. */
  lemma EncodedLayout(f: Frame, key: Option<Key>)
    requires Sendable(f)
    ensures var s, n := Encoded(f, key), |f.payload|;
            && StartsWithFrame(s, f, []) && s[0] == 128 + f.opcode && (s[1] >= 128 <==> key.Some?)
            && LengthEnd(s) == (if n < 126 then 2 else if n < 65_536 then 4 else 10)
            && (key.Some? ==>
                  var k := key.value; s[LengthEnd(s)..LengthEnd(s) + 4] == [k.a, k.b, k.c, k.d])
  {
    var s := Encoded(f, key);
    FrameRoundTrip(f, key, []);
    assert s + [] == s;
    FrameIsOnTheWire(s);
    EncodedHeader(f, key);
  }

  lemma KeyStands(head: byte, field: seq<byte>, k: Key, body: seq<byte>)
    ensures var s, at := [head] + field + (k.Bytes() + body), 1 + |field|;
            |s| >= at + 4 && s[at..at + 4] == [k.a, k.b, k.c, k.d]
  {
    var s, at := [head] + field + (k.Bytes() + body), 1 + |field|;
    assert s[at] == k.a && s[at + 1] == k.b && s[at + 2] == k.c && s[at + 3] == k.d;
  }

  lemma EncodedHeader(f: Frame, key: Option<Key>)
    requires Sendable(f)
    ensures var s, n := Encoded(f, key), |f.payload|;
            && |s| >= 2 && s[0] == 128 + f.opcode && (s[1] >= 128 <==> key.Some?)
            && LengthEnd(s) == (if n < 126 then 2 else if n < 65_536 then 4 else 10) <= |s|
            && (key.Some? ==>
                  var k := key.value;
                  |s| >= LengthEnd(s) + 4 && s[LengthEnd(s)..LengthEnd(s) + 4] == [k.a, k.b, k.c, k.d])
  {
    var s, field := Encoded(f, key), LengthField(key.Some?, |f.payload|);
    assert s[0] == WithTopBit(f.opcode) && s[1] == field[0];
    if key.Some? {
      KeyStands(s[0], field, key.value, Masked(f.payload, key.value));
    }
  }

  lemma HelloBytes()
    ensures IsXor(0x48, 0x7f, 0x37) && IsXor(0x65, 0x9f, 0xfa) && IsXor(0x6c, 0x4d, 0x21)
    ensures IsXor(0x6c, 0x51, 0x3d) && IsXor(0x6f, 0x58, 0x37)
  {
  }

  lemma HelloMask(data: seq<byte>, key: seq<byte>, hello: seq<byte>)
    requires data == [0x7f, 0x9f, 0x4d, 0x51, 0x58] && key == [0x37, 0xfa, 0x21, 0x3d]
    requires hello == [0x48, 0x65, 0x6c, 0x6c, 0x6f]
    ensures MaskedBy(data, key, hello)
  {
    HelloBytes();
    FiveBytes(IsXor, data, key, hello);
  }

  lemma FiveBytes(rel: (byte, byte, byte) -> bool, data: seq<byte>, key: seq<byte>, masked: seq<byte>)
    requires |data| == |masked| == 5 && |key| == 4
    requires rel(masked[0], data[0], key[0]) && rel(masked[1], data[1], key[1]) && rel(masked[2], data[2], key[2])
    requires rel(masked[3], data[3], key[3]) && rel(masked[4], data[4], key[0])
    ensures forall i :: 0 <= i < |data| ==> rel(masked[i], data[i], key[i % 4])
  {
  }

  /** The example of section 5.7 of RFC 6455: a masked "Hello". */
  lemma MaskedHello(s: seq<byte>, hello: seq<byte>)
    requires s == [0x81, 0x85, 0x37, 0xfa, 0x21, 0x3d, 0x7f, 0x9f, 0x4d, 0x51, 0x58]
    requires hello == [0x48, 0x65, 0x6c, 0x6c, 0x6f]
    ensures ParseFrame(s) == Ok(Read(Frame(1, hello), []))
  {
    FrameIsOnTheWire(s);
    assert s[6..11] == [0x7f, 0x9f, 0x4d, 0x51, 0x58] && s[2..6] == [0x37, 0xfa, 0x21, 0x3d];
    HelloMask(s[6..11], s[2..6], hello);
    assert StartsWithFrame(s, Frame(1, hello), []);
    FrameIsUnique(s, Frame(1, hello), [], ParseFrame(s).value.frame, ParseFrame(s).value.rest);
  }

  // ---- Streams of frames ----

  datatype Sent = Sent(frame: Frame, key: Option<Key>)

  function Wire(s: Sent): seq<byte> {
    Encoded(s.frame, s.key)
  }

  /** A parser of one frame, which consumes something whenever it succeeds; ParseFrame is one. */
  type FrameParser = p: seq<byte> -> Result<Read, ReadError> |
    forall s :: p(s).Ok? ==> |p(s).value.rest| < |s|
    witness (s: seq<byte>) => Err(EndOfInput)

  type FramePrinter = Sent -> seq<byte>

  ghost predicate Undoes(parse: FrameParser, show: FramePrinter) {
    forall s: Sent, rest: seq<byte> :: Sendable(s.frame) ==> parse(show(s) + rest) == Ok(Read(s.frame, rest))
  }

  lemma ParseFrameUndoesWire()
    ensures Undoes(ParseFrame, Wire)
  {
    forall s: Sent, rest: seq<byte> | Sendable(s.frame)
      ensures ParseFrame(Wire(s) + rest) == Ok(Read(s.frame, rest))
    {
      FrameRoundTrip(s.frame, s.key, rest);
    }
  }

  function PrintAll(show: FramePrinter, sent: seq<Sent>): seq<byte> {
    if sent == [] then [] else show(sent[0]) + PrintAll(show, sent[1..])
  }

  function FramesOf(sent: seq<Sent>): seq<Frame> {
    if sent == [] then [] else [sent[0].frame] + FramesOf(sent[1..])
  }

  /** All the frames of a byte sequence. */
  ghost function ParseAll(parse: FrameParser, s: seq<byte>): Result<seq<Frame>, ReadError>
    decreases |s|
  {
    if s == [] then Ok([])
    else
      var first := parse(s);
      if first.Err? then Err(first.error)
      else
        var others := ParseAll(parse, first.value.rest);
        if others.Err? then others else Ok([first.value.frame] + others.value)
  }

  lemma {:induction false} ParseAllUndoesPrintAll(parse: FrameParser, show: FramePrinter, sent: seq<Sent>)
    requires Undoes(parse, show)
    requires forall i :: 0 <= i < |sent| ==> Sendable(sent[i].frame)
    ensures ParseAll(parse, PrintAll(show, sent)) == Ok(FramesOf(sent))
  {
    if sent != [] {
      var first, others := sent[0], sent[1..];
      ParseAllUndoesPrintAll(parse, show, others);
      var s := show(first) + PrintAll(show, others);
      assert parse(s) == Ok(Read(first.frame, PrintAll(show, others)));
    }
  }

  /** Reading undoes writing on any sequence of frames, masked or not, in all three length forms. */
  lemma {:induction false} ReadingUndoesWriting(sent: seq<Sent>)
    requires forall i :: 0 <= i < |sent| ==> Sendable(sent[i].frame)
    ensures ParseAll(ParseFrame, PrintAll(Wire, sent)) == Ok(FramesOf(sent))
  {
    ParseFrameUndoesWire();
    ParseAllUndoesPrintAll(ParseFrame, Wire, sent);
  }

  /** What ReadFrame makes of the bytes: the first frame that is not a ping, and the pongs written on the way. */
  datatype Delivered = Delivered(result: Result<Read, ReadError>, pongs: seq<byte>)

  function PongTo(ping: Frame): Sent {
    Sent(Frame(OP_PONG, ping.payload), None)
  }

  ghost function Deliver(parse: FrameParser, show: FramePrinter, s: seq<byte>): Delivered
    decreases |s|
  {
    var r := parse(s);
    if r.Ok? && r.value.frame.opcode == OP_PING then
      var later := Deliver(parse, show, r.value.rest);
      Delivered(later.result, show(PongTo(r.value.frame)) + later.pongs)
    else Delivered(r, [])
  }

  function Pongs(pings: seq<Sent>): seq<Sent> {
    if pings == [] then [] else [PongTo(pings[0].frame)] + Pongs(pings[1..])
  }

  /** Each answer is a pong, opcode ten, with the payload of its ping, and not masked. */
  lemma {:induction false} PongsRepeatThePings(pings: seq<Sent>)
    ensures |Pongs(pings)| == |pings|
    ensures forall k :: 0 <= k < |pings| ==> Pongs(pings)[k] == Sent(Frame(10, pings[k].frame.payload), None)
  {
    if pings != [] {
      PongsRepeatThePings(pings[1..]);
    }
  }

  lemma {:induction false} DeliverAnswersPings(parse: FrameParser, show: FramePrinter, pings: seq<Sent>,
                                              message: Sent, rest: seq<byte>)
    requires Undoes(parse, show)
    requires forall i :: 0 <= i < |pings| ==> Sendable(pings[i].frame) && pings[i].frame.opcode == OP_PING
    requires Sendable(message.frame) && message.frame.opcode != OP_PING
    ensures Deliver(parse, show, PrintAll(show, pings) + (show(message) + rest))
         == Delivered(Ok(Read(message.frame, rest)), PrintAll(show, Pongs(pings)))
  {
    var tail := show(message) + rest;
    if pings == [] {
      assert PrintAll(show, pings) + tail == tail;
    } else {
      var first, others := pings[0], pings[1..];
      var after := PrintAll(show, others) + tail;
      assert PrintAll(show, pings) + tail == show(first) + after;
      DeliverAnswersPings(parse, show, others, message, rest);
      assert Pongs(pings)[1..] == Pongs(others);
    }
  }

  /** Each ping is answered, in order and with its own payload, and the first other frame is returned. */
  lemma PingsAreAnswered(pings: seq<Sent>, message: Sent, rest: seq<byte>)
    requires forall i :: 0 <= i < |pings| ==> Sendable(pings[i].frame) && pings[i].frame.opcode == 9
    requires Sendable(message.frame) && message.frame.opcode != 9
    ensures Deliver(ParseFrame, Wire, PrintAll(Wire, pings) + (Wire(message) + rest))
         == Delivered(Ok(Read(message.frame, rest)), PrintAll(Wire, Pongs(pings)))
  {
    ParseFrameUndoesWire();
    DeliverAnswersPings(ParseFrame, Wire, pings, message, rest);
  }

  // ---- The connection ----

  /** The frame, or the error, that was expected; and after a frame, the bytes that should be left. */
  ghost predicate Agrees(expected: Result<Read, ReadError>, got: Result<Frame, ReadError>, rest: seq<byte>) {
    if expected.Err? then got == Err(expected.error)
    else got == Ok(expected.value.frame) && rest == expected.value.rest
  }

  lemma DeliverPing(parse: FrameParser, show: FramePrinter, s: seq<byte>, ping: Read)
    requires parse(s) == Ok(ping) && ping.frame.opcode == OP_PING
    ensures |ping.rest| < |s|
    ensures var later := Deliver(parse, show, ping.rest);
            Deliver(parse, show, s) == Delivered(later.result, show(PongTo(ping.frame)) + later.pongs)
  {
  }

  /**
   A connection that had written `before` has written `after`: all of `data`, or only as much of it as went through
   before the connection broke, which is nothing if it was broken already.
   */
  ghost predicate Puts(before: seq<byte>, wasBroken: bool, after: seq<byte>, isBroken: bool, data: seq<byte>) {
    && before <= after <= before + data
    && (wasBroken ==> isBroken && after == before)
    && (!isBroken ==> after == before + data)
  }

  lemma PutsBoth(s0: seq<byte>, b0: bool, s1: seq<byte>, s2: seq<byte>, b2: bool, first: seq<byte>, second: seq<byte>)
    requires Puts(s0, b0, s1, false, first) && Puts(s1, false, s2, b2, second)
    ensures Puts(s0, b0, s2, b2, first + second)
  {
    assert s0 + first + second == s0 + (first + second);
  }

  lemma PutsFirst(s0: seq<byte>, b0: bool, s1: seq<byte>, first: seq<byte>, second: seq<byte>)
    requires Puts(s0, b0, s1, true, first)
    ensures Puts(s0, b0, s1, true, first + second)
  {
    assert s0 + first + second == s0 + (first + second);
  }

  /** What came of reading: the pongs have gone out and the result is the expected one, or a pong could not be written. */
  ghost predicate Delivers(d: Delivered, before: seq<byte>, wasBroken: bool, after: seq<byte>, isBroken: bool,
                           r: Result<Frame, ReadError>, rest: seq<byte>) {
    && Puts(before, wasBroken, after, isBroken, d.pongs)
    && (d.pongs == [] ==> isBroken == wasBroken)
    && if isBroken && d.pongs != [] then r == Err(PongNotWritten) else Agrees(d.result, r, rest)
  }

  /** Reading one frame that is not a ping, or failing, delivers. */
  lemma DeliversOther(parse: FrameParser, show: FramePrinter, s: seq<byte>, got: Result<Frame, ReadError>, rest: seq<byte>,
                      written: seq<byte>, broken: bool)
    requires Agrees(parse(s), got, rest) && (got.Err? || got.value.opcode != OP_PING)
    ensures Delivers(Deliver(parse, show, s), written, broken, written, broken, got, rest)
  {
    assert written + [] == written;
  }

  /** So does answering a ping and, if that works, going on from the rest. */
  lemma DeliversAfterPing(parse: FrameParser, show: FramePrinter, s: seq<byte>, ping: Frame, rest: seq<byte>,
                          s0: seq<byte>, b0: bool, s1: seq<byte>, b1: bool)
    requires Agrees(parse(s), Ok(ping), rest) && ping.opcode == OP_PING
    requires show(PongTo(ping)) != [] && Puts(s0, b0, s1, b1, show(PongTo(ping)))
    ensures |rest| < |s|
    ensures b1 ==> Delivers(Deliver(parse, show, s), s0, b0, s1, b1, Err(PongNotWritten), rest)
    ensures !b1 ==> forall s2, b2, r, left :: Delivers(Deliver(parse, show, rest), s1, b1, s2, b2, r, left) ==>
                      Delivers(Deliver(parse, show, s), s0, b0, s2, b2, r, left)
  {
    DeliverPing(parse, show, s, Read(ping, rest));
    var later := Deliver(parse, show, rest);
    if b1 {
      PutsFirst(s0, b0, s1, show(PongTo(ping)), later.pongs);
    } else {
      forall s2, b2, r, left | Delivers(later, s1, b1, s2, b2, r, left)
        ensures Delivers(Deliver(parse, show, s), s0, b0, s2, b2, r, left)
      {
        PutsBoth(s0, b0, s1, s2, b2, show(PongTo(ping)), later.pongs);
      }
    }
  }

  /** Conn: what is still to be read, what has been written, and whether the buffered writer keeps an error. */
  class Conn {
    const reader: Reader
    var written: seq<byte>
    var broken: bool

    constructor (reader: Reader)
      ensures this.reader == reader && written == [] && !broken
    {
      this.reader := reader;
      written, broken := [], false;
    }

    /** The buffered writer: some of the data may still go out when it fails, and nothing does afterwards. */
    method Put(data: seq<byte>) returns (ok: bool)
      modifies this
      ensures Puts(old(written), old(broken), written, broken, data) && ok == !broken
    {
      if broken {
        return false;
      }
      var n: nat :| n <= |data|;
      ok := *;
      if ok {
        written := written + data;
      } else {
        assert written + data[..n] <= written + data;
        written, broken := written + data[..n], true;
      }
    }

    /** writeFrame: header byte, length form, payload, one after the other. */
    method WriteFrame(opcode: byte, payload: seq<byte>) returns (ok: bool)
      modifies this
      ensures Puts(old(written), old(broken), written, broken, Encoded(Frame(opcode, payload), None)) && ok == !broken
    {
      var out := [WithTopBit(opcode)];
      var length := |payload|;
      if length < 126 {
        out := out + [length as byte];
      } else if length <= 0xFFFF {
        out := out + ([126] + BE(length, 2));
      } else {
        out := out + ([127] + BE(length, 8));
      }
      out := out + payload;
      ok := Put(out);
    }

    /** The reads of a length: one, three or nine bytes. */
    method ReadLength() returns (r: Result<(bool, nat), ReadError>)
      requires reader.Valid()
      modifies reader
      ensures reader.Valid()
      ensures match ParseLength(old(reader.Rest()))
              case Err(e) => r == Err(e)
              case Ok(l) => r == Ok((l.masked, l.size)) && reader.Rest() == l.rest
    {
      var one, first := reader.ReadFull(1);
      if first != Full {
        return Err(EndOfInput);
      }
      var lengthByte := one[0];
      var masked := lengthByte >= 128;
      var payloadLength: nat := lengthByte as int % 128;
      if payloadLength == 126 {
        var two, second := reader.ReadFull(2);
        if second != Full {
          return Err(EndOfInput);
        }
        payloadLength := UBE(two);
      } else if payloadLength == 127 {
        var eight, second := reader.ReadFull(8);
        if second != Full {
          return Err(EndOfInput);
        }
        if UBE(eight) > MAX_PAYLOAD {
          return Err(TooLarge);
        }
        payloadLength := UBE(eight);
      }
      if payloadLength > MAX_PAYLOAD {
        return Err(TooLarge);
      }
      r := Ok((masked, payloadLength));
    }

    /** readFrame: the payload is unmasked in place. */
    method ReadOneFrame() returns (r: Result<Frame, ReadError>)
      requires reader.Valid()
      modifies reader
      ensures reader.Valid()
      ensures Agrees(ParseFrame(old(reader.Rest())), r, reader.Rest())
    {
      var one, first := reader.ReadFull(1);
      if first != Full {
        return Err(EndOfInput);
      }
      var header := one[0];
      if header < 128 {
        return Err(Fragmented);
      }
      var opcode := (header as int % 16) as byte;
      var length := ReadLength();
      if length.Err? {
        return Err(length.error);
      }
      var (masked, size) := length.value;
      var payload := ReadPayload(masked, size, opcode);
      if payload.Err? {
        return Err(payload.error);
      }
      r := Ok(Frame(opcode, payload.value));
    }

    method ReadPayload(masked: bool, size: nat, ghost opcode: byte) returns (r: Result<seq<byte>, ReadError>)
      requires reader.Valid()
      modifies reader
      ensures reader.Valid()
      ensures match ParsePayload(opcode, Length(masked, size, old(reader.Rest())))
              case Err(e) => r == Err(e)
              case Ok(read) => r == Ok(read.frame.payload) && reader.Rest() == read.rest
    {
      var key := Tag(0, 0, 0, 0);
      if masked {
        var four, got := reader.ReadFull(4);
        if got != Full {
          return Err(EndOfInput);
        }
        key := Tag(four[0], four[1], four[2], four[3]);
      }
      var read, got := reader.ReadFull(size);
      if got != Full {
        return Err(EndOfInput);
      }
      if masked {
        var payload := Unmask(read, key);
        return Ok(payload);
      }
      r := Ok(read);
    }

    /** Frames until one is not a ping, or its pong cannot be written. */
    method ReadFrame() returns (r: Result<Frame, ReadError>)
      requires reader.Valid()
      modifies this, reader
      decreases |reader.data| - reader.pos
      ensures reader.Valid()
      ensures Delivers(Deliver(ParseFrame, Wire, old(reader.Rest())), old(written), old(broken), written, broken,
                       r, reader.Rest())
    {
      ghost var start := reader.Rest();
      var frame := ReadOneFrame();
      if frame.Ok? && frame.value.opcode == OP_PING {
        ghost var rest := reader.Rest();
        var ok := WriteFrame(OP_PONG, frame.value.payload);
        DeliversAfterPing(ParseFrame, Wire, start, frame.value, rest, old(written), old(broken), written, broken);
        if !ok {
          return Err(PongNotWritten);
        }
        r := ReadFrame();
        return;
      }
      DeliversOther(ParseFrame, Wire, start, frame, reader.Rest(), written, broken);
      r := frame;
    }
  }

  /** The unmasking loop over the payload buffer. */
  method Unmask(read: seq<byte>, key: Key) returns (unmasked: seq<byte>)
    ensures unmasked == Masked(read, key) && MaskedBy(read, [key.a, key.b, key.c, key.d], unmasked)
  {
    var payload := new byte[|read|](i requires 0 <= i < |read| => read[i]);
    for i := 0 to payload.Length
      invariant forall k :: 0 <= k < i ==> payload[k] == Xor(read[k], KeyAt(key, k))
      invariant forall k :: i <= k < payload.Length ==> payload[k] == read[k]
    {
      payload[i] := Xor(payload[i], KeyAt(key, i));
    }
    unmasked := payload[..];
    assert unmasked == Masked(read, key);
    MaskedIsMasked(read, key);
  }
}
