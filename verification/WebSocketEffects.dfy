/** What the bytes of a frame mean, and what each kind of frame does to a connection. */
module WebSocketEffects {
  import opened Common
  import opened WebSocket
  import WebSocketClient

  /* ---- The bytes of a frame, section 5.2 ---- */

  /** The number with these two as its high and low part, the low part a byte. */
  function Two(high: nat, low: Byte): nat {
    high * 256 + low
  }

  function Four(a: Byte, b: Byte, c: Byte, d: Byte): nat {
    Two(Two(Two(a, b), c), d)
  }

  /** The number at the front of an eight-byte length, and the one behind it. */
  function Upper(b: Bytes): nat
    requires |b| == 8
  {
    Four(b[0], b[1], b[2], b[3])
  }

  function Lower(b: Bytes): nat
    requires |b| == 8
  {
    Four(b[4], b[5], b[6], b[7])
  }

  lemma EightBytesAreRead(b: Bytes)
    requires |b| == 8
    ensures BigEndian(b) == Upper(b) * 0x1_0000_0000 + Lower(b)
    ensures BigEndian(b[4..]) == Lower(b)
  {
    hide BigEndian;
    FourAreRead(b[4..]);
    FourAreRead(b[..4]);
    WebSocketClient.EightBytes(b);
  }

  lemma FourAreRead(b: Bytes)
    requires |b| == 4
    ensures BigEndian(b) == Four(b[0], b[1], b[2], b[3])
  {
    assert b[..3][..2] == b[..2];
    TwoAreRead(b[..2]);
  }

  lemma TwoAreRead(b: Bytes)
    requires |b| == 2
    ensures BigEndian(b) == Two(b[0], b[1])
  {
    assert b[..1][..0] == [];
    assert BigEndian(b[..1]) == b[0];
  }

  /** Where the mask key starts, and how long the payload is, by the seven-bit length; a
      length with bit 31 set is taken for one with the upper half all ones. */
  predicate Announces(b: Bytes, key: nat, length: nat) {
    && |b| >= 2
    && (b[1] % 128 < 126 ==> key == 2 && length == b[1] % 128)
    && (b[1] % 128 == 126 ==> key == 4 <= |b| && length == Two(b[2], b[3]))
    && (b[1] % 128 == 127 ==>
          key == 10 <= |b|
          && length == (if b[6] >= 128 then 0xFFFF_FFFF else Upper(b[2..10])) * 0x1_0000_0000 + Lower(b[2..10]))
  }

  predicate Unmasked(b: Bytes, key: nat, payload: Bytes) {
    && key + 4 + |payload| <= |b|
    && forall i :: 0 <= i < |payload| ==> Flipped(payload[i], b[key + 4 + i], b[key + i % 4])
  }

  /** Two bytes are needed to say anything. Reserved bits and unmasked frames are refused. A
      frame is there when all of its payload is, and it is found unmasked. */
  lemma FramesAreFound(b: Bytes)
    ensures var p := ParseFrame(b);
            && (|b| < 2 ==> p == NeedMore)
            && (|b| >= 2 ==> (p == Refused <==> b[0] / 16 % 8 != 0 || b[1] < 128))
            && (forall key: nat, length: nat :: |b| >= 2 && p != Refused && Announces(b, key, length) ==>
                  if key + 4 + length > |b| then p == NeedMore
                  else && p.Frame? && p.fin == (b[0] >= 128) && p.opcode == b[0] % 16
                       && p.size == key + 4 + length && |p.payload| == length && Unmasked(b, key, p.payload))
            && (|b| >= 2 && p != Refused && ((b[1] % 128 == 126 && |b| < 4) || (b[1] % 128 == 127 && |b| < 10)) ==> p == NeedMore)
  {
    hide BigEndian, Masked;
    if |b| >= 2 && ParseFrame(b) != Refused {
      forall key: nat, length: nat | Announces(b, key, length)
        ensures var p := ParseFrame(b);
                if key + 4 + length > |b| then p == NeedMore
                else && p.Frame? && p.fin == (b[0] >= 128) && p.opcode == b[0] % 16
                     && p.size == key + 4 + length && |p.payload| == length && Unmasked(b, key, p.payload)
      {
        AnnouncedIsRead(b, key, length);
        if key + 4 + length <= |b| { PayloadIsUnmasked(b, key, length); }
      }
    }
  }

  lemma AnnouncedIsRead(b: Bytes, key: nat, length: nat)
    requires Announces(b, key, length)
    ensures key == 2 + Extension(b[1] % 128) && (key + 4 <= |b| ==> length == FrameLength(b[1] % 128, b[2..key]))
  {
    hide BigEndian;
    if b[1] % 128 == 126 { TwoAreRead(b[2..4]); }
    if b[1] % 128 == 127 { EightBytesAreRead(b[2..10]); }
  }

  lemma PayloadIsUnmasked(b: Bytes, key: nat, length: nat)
    requires key + 4 + length <= |b|
    ensures Unmasked(b, key, Masked(b[key + 4..key + 4 + length], b[key..key + 4]))
  {
    hide Xor, Flipped;
    var payload := Masked(b[key + 4..key + 4 + length], b[key..key + 4]);
    forall i | 0 <= i < |payload| ensures Flipped(payload[i], b[key + 4 + i], b[key + i % 4]) {
      XorFlips(b[key + 4 + i], b[key + i % 4]);
    }
  }

  /** The header that the server writes: no mask, and the shortest form of the length, most
      significant byte first. */
  lemma HeaderBytes(opcode: nat, length: nat)
    requires opcode < 16 && length < 0x1_0000_0000_0000_0000
    ensures var h := ServerHeader(opcode, length);
            && |h| >= 2 && h[0] == 128 + opcode
            && (length < 126 ==> |h| == 2 && h[1] == length)
            && (126 <= length <= 0xFFFF ==> |h| == 4 && h[1] == 126 && length == Two(h[2], h[3]))
            && (length > 0xFFFF ==> |h| == 10 && h[1] == 127 && length == Upper(h[2..]) * 0x1_0000_0000 + Lower(h[2..]))
  {
    hide BigEndian, BE;
    var h := ServerHeader(opcode, length);
    assert h[2..] == LengthBytes(length);
    PowersOf256();
    if length > 0xFFFF {
      BigEndianReads(length, 8);
      EightBytesAreRead(h[2..]);
    } else if length >= 126 {
      BigEndianReads(length, 2);
      TwoAreRead(h[2..]);
    }
  }

  /* ---- What a frame does ---- */

  /** The connection is gone; the last thing the other side heard is the error. */
  predicate ClosedWith(d: Connection, c: Connection, code: nat) {
    !d.open && d.events == c.events + [CloseSent(code)]
  }

  /** Pings are answered with their payload and pongs are ignored, also between the frames of
      a message; neither may be in several frames or have more than 125 bytes. */
  lemma PingsAndPongs(cfg: Settings, c: Connection, fin: bool, opcode: nat, payload: Bytes)
    requires opcode in {9, 10}
    ensures var d := Accept(cfg, c, fin, opcode, payload);
            if !fin || |payload| > 125 then ClosedWith(d, c, 1002)
            else d == c.(events := c.events + if opcode == 9 then [PongSent(payload)] else [])
  {
    assert c.events + [] == c.events;
  }

  /** A close frame is sent back as it is, unless it has half a code, a code that must not be
      sent (section 7.4), or a reason that is not text. */
  lemma CloseFramesAreAnswered(cfg: Settings, c: Connection, fin: bool, payload: Bytes)
    ensures var d := Accept(cfg, c, fin, 8, payload);
            var code: nat := if |payload| < 2 then 1000 else Two(payload[0], payload[1]);
            if || !fin || |payload| > 125 || |payload| == 1
               || code < 1000 || code > 4999 || code in {1004, 1005, 1006, 1015}
               || (|payload| > 2 && !cfg.isUtf8(payload[2..]))
            then ClosedWith(d, c, 1002)
            else !d.open && d.events == c.events + [CloseEchoed(payload)]
  {
    if |payload| >= 2 { TwoAreRead(payload[..2]); }
  }

  /** Other control frames are errors. */
  lemma OtherControlFramesAreRefused(cfg: Settings, c: Connection, fin: bool, opcode: nat, payload: Bytes)
    requires opcode > 10
    ensures ClosedWith(Accept(cfg, c, fin, opcode, payload), c, 1002)
  {
  }

  /** A complete message is handed on, if it is binary, or text that is text. */
  lemma MessagesAreHandedOn(cfg: Settings, c: Connection, opcode: nat, payload: Bytes)
    requires opcode < 8 && c.opcode == 0
    ensures var d := Accept(cfg, c, true, opcode, payload);
            if opcode == 2 || (opcode == 1 && cfg.isUtf8(payload)) then d == c.(events := c.events + [Data(opcode, payload)])
            else ClosedWith(d, c, if opcode == 1 then 1007 else 1002)
  {
  }

  /** The first frame of a message is kept with its opcode. */
  lemma FirstFramesAreKept(cfg: Settings, c: Connection, opcode: nat, payload: Bytes)
    requires opcode < 8 && c.opcode == 0
    ensures var d := Accept(cfg, c, false, opcode, payload);
            if opcode == 0 then ClosedWith(d, c, 1002)
            else if |c.partial| + |payload| >= cfg.limit then ClosedWith(d, c, 1009)
            else d == c.(opcode := opcode, partial := c.partial + payload)
  {
  }

  /** Further frames have opcode 0, and add to it; the last one completes the message, which
      is then handed on with the opcode of the first. */
  lemma FurtherFramesAreAdded(cfg: Settings, c: Connection, fin: bool, opcode: nat, payload: Bytes)
    requires opcode < 8 && c.opcode != 0
    ensures var d := Accept(cfg, c, fin, opcode, payload);
            var whole := c.partial + payload;
            && (opcode != 0 ==> ClosedWith(d, c, 1002))
            && (opcode == 0 && |whole| >= cfg.limit ==> ClosedWith(d, c, 1009))
            && (opcode == 0 && |whole| < cfg.limit && !fin ==> d == c.(partial := whole))
            && (opcode == 0 && |whole| < cfg.limit && fin && (c.opcode == 2 || (c.opcode == 1 && cfg.isUtf8(whole))) ==>
                  d == c.(opcode := 0, partial := [], events := c.events + [Data(c.opcode, whole)]))
            && (opcode == 0 && |whole| < cfg.limit && fin && c.opcode == 1 && !cfg.isUtf8(whole) ==> ClosedWith(d, c, 1007))
            && (opcode == 0 && |whole| < cfg.limit && fin && 3 <= c.opcode < 8 ==> ClosedWith(d, c, 1002))
  {
  }

  /* ---- What a chunk does ---- */

  /** A closed connection does nothing. A chunk that makes too much of what was left over is
      refused. Otherwise both are one stream, and its frames are handled in order: an
      incomplete one is kept, a malformed one is an error, and a complete one is handled
      and what is behind it comes next, as long as the connection is open. */
  lemma ChunksAreHandled(cfg: Settings, c: Connection, data: Bytes)
    ensures !c.open ==> OnData(cfg, c, data) == c
    ensures c.open && |c.buffer| + |data| + 1 >= cfg.limit ==> ClosedWith(OnData(cfg, c, data), c, 1009)
    ensures c.open && |c.buffer| + |data| + 1 < cfg.limit ==>
              var stream := c.buffer + data;
              var p := ParseFrame(stream);
              && (p == NeedMore ==> OnData(cfg, c, data) == c.(buffer := stream))
              && (p == Refused ==> ClosedWith(OnData(cfg, c, data), c, 1002))
              && (p.Frame? ==>
                    && p.size <= |stream|
                    && var d := Accept(cfg, c.(buffer := stream), p.fin, p.opcode, p.payload);
                       OnData(cfg, c, data) == if d.open then OnData(cfg, d.(buffer := []), stream[p.size..]) else d)
  {
    hide Accept, ParseFrame;
    if c.open && |c.buffer| + |data| + 1 < cfg.limit {
      var stream := c.buffer + data;
      var p := ParseFrame(stream);
      if p.Frame? {
        ParseIsStable(stream, []);
        var d := Accept(cfg, c.(buffer := stream), p.fin, p.opcode, p.payload);
        assert [] + stream[p.size..] == stream[p.size..];
      }
    }
  }
}
