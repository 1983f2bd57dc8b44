/** WebSocket framing as the server's client connection reads and writes it, after the
    handshake. References are to RFC 6455. */
module WebSocket {
  import opened Common

  /* ---- Masking, section 5.3 ---- */

  /** The exclusive-or of the lowest `n` bits. */
  function XorBits(a: nat, b: nat, n: nat): nat {
    if n == 0 then 0
    else 2 * XorBits(a / 2, b / 2, n - 1) + if a % 2 != b % 2 then 1 else 0
  }

  lemma {:induction false} XorIsSmall(a: nat, b: nat, n: nat)
    ensures XorBits(a, b, n) < Pow2(n)
  {
    if n > 0 { XorIsSmall(a / 2, b / 2, n - 1); }
  }

  function Pow2(n: nat): (p: nat)
    ensures p > 0
  {
    if n == 0 then 1 else 2 * Pow2(n - 1)
  }

  lemma LowestBit(x: nat, d: nat)
    requires d < 2
    ensures (2 * x + d) / 2 == x && (2 * x + d) % 2 == d
  {
  }

  lemma {:induction false} XorTwice(a: nat, b: nat, n: nat)
    requires a < Pow2(n)
    ensures XorBits(XorBits(a, b, n), b, n) == a
  {
    if n > 0 {
      XorTwice(a / 2, b / 2, n - 1);
      LowestBit(XorBits(a / 2, b / 2, n - 1), if a % 2 != b % 2 then 1 else 0);
    }
  }

  function Xor(a: Byte, b: Byte): Byte {
    XorIsSmall(a, b, 8);
    assert Pow2(8) == 256;
    XorBits(a, b, 8)
  }

  lemma XorUndoes(a: Byte, b: Byte)
    ensures Xor(Xor(a, b), b) == a
  {
    assert Pow2(8) == 256;
    XorTwice(a, b, 8);
  }

  /** Bit `i` is set; bit 0 is the lowest. */
  predicate Bit(x: nat, i: nat) {
    if i == 0 then x % 2 == 1 else Bit(x / 2, i - 1)
  }

  lemma {:induction false} XorBitsDiffer(a: nat, b: nat, n: nat, i: nat)
    requires i < n
    ensures Bit(XorBits(a, b, n), i) <==> Bit(a, i) != Bit(b, i)
  {
    LowestBit(XorBits(a / 2, b / 2, n - 1), if a % 2 != b % 2 then 1 else 0);
    if i > 0 { XorBitsDiffer(a / 2, b / 2, n - 1, i - 1); }
  }

  /** Exactly the bits that differ are set. */
  lemma XorSetsTheBitsThatDiffer(a: Byte, b: Byte, i: nat)
    requires i < 8
    ensures Bit(Xor(a, b), i) <==> Bit(a, i) != Bit(b, i)
  {
    XorBitsDiffer(a, b, 8, i);
  }

  /** The byte is the other with the bits of the key flipped. */
  predicate Flipped(now: Byte, was: Byte, key: Byte) {
    forall i :: 0 <= i < 8 ==> (Bit(now, i) <==> Bit(was, i) != Bit(key, i))
  }

  lemma XorFlips(a: Byte, b: Byte)
    ensures Flipped(Xor(a, b), a, b)
  {
    forall i | 0 <= i < 8 ensures Bit(Xor(a, b), i) <==> Bit(a, i) != Bit(b, i) { XorSetsTheBitsThatDiffer(a, b, i); }
  }

  /** Masking and unmasking are the same operation. */
  function Masked(data: Bytes, key: Bytes): (m: Bytes)
    requires |key| == 4
    ensures |m| == |data|
  {
    seq(|data|, i requires 0 <= i < |data| => Xor(data[i], key[i % 4]))
  }

  lemma MaskTwice(data: Bytes, key: Bytes)
    requires |key| == 4
    ensures Masked(Masked(data, key), key) == data
  {
    forall i | 0 <= i < |data| ensures Masked(Masked(data, key), key)[i] == data[i] {
      XorUndoes(data[i], key[i % 4]);
    }
  }

  /* ---- Frames, section 5.2 ---- */

  datatype Parsed =
    | NeedMore
    | Refused
    | Frame(fin: bool, opcode: nat, payload: Bytes, size: nat)

  function BigEndian(b: Bytes): nat {
    if b == [] then 0 else BigEndian(b[..|b| - 1]) * 256 + b[|b| - 1]
  }

  /** The eight-byte length as it is combined from shifted bytes: the lower four are
      shifted as 32-bit signed integers, so that the sign spreads over the upper half. */
  function Length64(b: Bytes): nat
    requires |b| == 8
  {
    if b[4] < 128 then BigEndian(b) else 0xFFFF_FFFF_0000_0000 + BigEndian(b[4..])
  }

  /** How many bytes extend the seven-bit length. */
  function Extension(len7: nat): nat {
    if len7 == 126 then 2 else if len7 == 127 then 8 else 0
  }

  function FrameLength(len7: nat, ext: Bytes): nat
    requires |ext| == Extension(len7)
  {
    if len7 == 126 then BigEndian(ext) else if len7 == 127 then Length64(ext) else len7
  }

  /** The first frame of the buffer, unmasked. */
  function ParseFrame(buffer: Bytes): Parsed {
    if |buffer| < 2 then NeedMore
    else if (buffer[0] / 16) % 8 != 0 || buffer[1] < 128 then Refused
    else ParsePayload(buffer, buffer[1] % 128)
  }

  function ParsePayload(buffer: Bytes, len7: nat): Parsed
    requires |buffer| >= 2
  {
    var start := 6 + Extension(len7);
    if |buffer| < start then NeedMore
    else
      var length := FrameLength(len7, buffer[2..start - 4]);
      if length > |buffer| - start then NeedMore
      else Frame(buffer[0] >= 128, buffer[0] % 16,
                 Masked(buffer[start..start + length], buffer[start - 4..start]), start + length)
  }

  /** More bytes never change what was already understood. */
  lemma ParseIsStable(buffer: Bytes, more: Bytes)
    ensures ParseFrame(buffer) != NeedMore ==> ParseFrame(buffer + more) == ParseFrame(buffer)
    ensures ParseFrame(buffer).Frame? ==> 0 < ParseFrame(buffer).size <= |buffer|
  {
    if |buffer| >= 2 {
      var start := 6 + Extension(buffer[1] % 128);
      if |buffer| >= start {
        assert (buffer + more)[2..start - 4] == buffer[2..start - 4];
        assert (buffer + more)[start - 4..start] == buffer[start - 4..start];
        var length := FrameLength(buffer[1] % 128, buffer[2..start - 4]);
        if length <= |buffer| - start {
          assert (buffer + more)[start..start + length] == buffer[start..start + length];
        }
      }
    }
  }

  /* ---- A connection ---- */

  datatype Event =
    | Data(opcode: nat, payload: Bytes)
    | PongSent(payload: Bytes)
    | CloseEchoed(payload: Bytes)
    | CloseSent(code: nat)

  /** `opcode` and `partial` belong to the fragmented message being assembled, if `opcode`
      is not 0. A closed connection keeps nothing. */
  datatype Connection = Connection(open: bool, buffer: Bytes, opcode: nat, partial: Bytes, events: seq<Event>)

  datatype Settings = Settings(limit: nat, isUtf8: Bytes -> bool)

  function Emit(c: Connection, e: Event): Connection {
    c.(events := c.events + [e])
  }

  function Destroyed(c: Connection): Connection {
    Connection(false, [], 0, [], c.events)
  }

  function Close(c: Connection, code: nat): Connection {
    Destroyed(Emit(c, CloseSent(code)))
  }

  predicate ValidCloseCode(code: nat) {
    1000 <= code < 5000 && code !in {1004, 1005, 1006, 1015}
  }

  function OnClose(cfg: Settings, c: Connection, payload: Bytes): Connection {
    if |payload| == 1 then Close(c, 1002)
    else if |payload| >= 2 && !ValidCloseCode(BigEndian(payload[..2])) then Close(c, 1002)
    else if |payload| > 2 && !cfg.isUtf8(payload[2..]) then Close(c, 1002)
    else Destroyed(Emit(c, CloseEchoed(payload)))
  }

  /** ProcessDataFrame() */
  function Process(cfg: Settings, c: Connection, opcode: nat, payload: Bytes): Connection {
    if opcode == 9 then Emit(c, PongSent(payload))
    else if opcode == 10 then c
    else if opcode == 8 then OnClose(cfg, c, payload)
    else if opcode == 1 && !cfg.isUtf8(payload) then Close(c, 1007)
    else if opcode == 1 || opcode == 2 then Emit(c, Data(opcode, payload))
    else Close(c, 1002)
  }

  /** Section 5.4: a message in several frames. */
  function Assemble(cfg: Settings, c: Connection, fin: bool, opcode: nat, payload: Bytes): Connection {
    if (c.opcode != 0) != (opcode == 0) then Close(c, 1002)
    else if |c.partial| + |payload| >= cfg.limit then Close(c, 1009)
    else
      var first := if c.opcode != 0 then c.opcode else opcode;
      if !fin then c.(opcode := first, partial := c.partial + payload)
      else Process(cfg, c, first, c.partial + payload).(opcode := 0, partial := [])
  }

  function Accept(cfg: Settings, c: Connection, fin: bool, opcode: nat, payload: Bytes): Connection {
    if opcode >= 8 then
      if !fin || |payload| > 125 then Close(c, 1002) else Process(cfg, c, opcode, payload)
    else if c.opcode == 0 && fin then Process(cfg, c, opcode, payload)
    else Assemble(cfg, c, fin, opcode, payload)
  }

  function Keep(c: Connection, buffer: Bytes): Connection {
    if c.open then c.(buffer := buffer) else c
  }

  /** Handles every complete frame in the buffer. */
  function Drain(cfg: Settings, c: Connection): Connection
    decreases |c.buffer|
  {
    if !c.open then c
    else
      match ParseFrame(c.buffer)
      case NeedMore => c
      case Refused => Close(c, 1002)
      case Frame(fin, opcode, payload, size) =>
        ParseIsStable(c.buffer, []);
        var d := Keep(Accept(cfg, c, fin, opcode, payload), c.buffer[size..]);
        if d.open then Drain(cfg, d) else d
  }

  /** OnSocketData() */
  function OnData(cfg: Settings, c: Connection, data: Bytes): Connection {
    if !c.open then c
    else if |c.buffer| + |data| + 1 >= cfg.limit then Close(c, 1009)
    else Drain(cfg, c.(buffer := c.buffer + data))
  }

  /* ---- Chunks do not matter ---- */

  /** What a frame does never depends on what follows it. */
  lemma AcceptIgnoresBuffer(cfg: Settings, c: Connection, fin: bool, opcode: nat, payload: Bytes, a: Bytes, b: Bytes)
    requires c.open
    ensures Keep(Accept(cfg, c.(buffer := a), fin, opcode, payload), b) == Keep(Accept(cfg, c.(buffer := b), fin, opcode, payload), b)
  {}

  lemma {:induction false} DrainResumes(cfg: Settings, c: Connection, more: Bytes)
    requires c.open
    ensures var d := Drain(cfg, c);
            Drain(cfg, c.(buffer := c.buffer + more)) == if d.open then Drain(cfg, d.(buffer := d.buffer + more)) else d
    decreases |c.buffer|
  {
    var p := ParseFrame(c.buffer);
    ParseIsStable(c.buffer, more);
    if p.Frame? {
      var whole := c.(buffer := c.buffer + more);
      assert whole.buffer[p.size..] == c.buffer[p.size..] + more;
      var d := Keep(Accept(cfg, c, p.fin, p.opcode, p.payload), c.buffer[p.size..]);
      AcceptIgnoresBuffer(cfg, c, p.fin, p.opcode, p.payload, c.buffer, c.buffer[p.size..] + more);
      AcceptIgnoresBuffer(cfg, c, p.fin, p.opcode, p.payload, whole.buffer, c.buffer[p.size..] + more);
      if d.open { DrainResumes(cfg, d, more); }
    }
  }

  lemma {:induction false} DrainShrinks(cfg: Settings, c: Connection)
    ensures var d := Drain(cfg, c);
            |d.buffer| <= |c.buffer| && (d.open ==> c.open && ParseFrame(d.buffer) == NeedMore)
    decreases |c.buffer|
  {
    ParseIsStable(c.buffer, []);
    var p := ParseFrame(c.buffer);
    if c.open && p.Frame? {
      var d := Keep(Accept(cfg, c, p.fin, p.opcode, p.payload), c.buffer[p.size..]);
      if d.open { DrainShrinks(cfg, d); }
    }
  }

  /** Between calls no complete frame is left in the buffer. */
  predicate Waiting(c: Connection) {
    c.open ==> ParseFrame(c.buffer) == NeedMore
  }

  /** What a stream does when nothing is in its way: one pass over all of it. */
  function Whole(cfg: Settings, c: Connection, stream: Bytes): Connection {
    if c.open then Drain(cfg, c.(buffer := c.buffer + stream)) else c
  }

  /** The size limit looks at one call: at what was left over and what has just arrived. */
  predicate Trips(cfg: Settings, c: Connection, chunk: Bytes) {
    c.open && |c.buffer| + |chunk| + 1 >= cfg.limit
  }

  lemma StaysWaiting(cfg: Settings, c: Connection, data: Bytes)
    requires Waiting(c)
    ensures Waiting(OnData(cfg, c, data)) && Waiting(Whole(cfg, c, data))
  {
    DrainShrinks(cfg, c.(buffer := c.buffer + data));
  }

  /** One pass over two parts of a stream, one after the other. */
  lemma TwoChunks(cfg: Settings, c: Connection, a: Bytes, b: Bytes)
    ensures Whole(cfg, Whole(cfg, c, a), b) == Whole(cfg, c, a + b)
  {
    hide Drain;
    if c.open {
      var d := c.(buffer := c.buffer + a);
      DrainResumes(cfg, d, b);
      assert d.buffer + b == c.buffer + (a + b);
    }
  }

  lemma NothingArrives(cfg: Settings, c: Connection)
    requires Waiting(c)
    ensures Whole(cfg, c, []) == c
  {
    assert c.buffer + [] == c.buffer;
  }

  function Concat(chunks: seq<Bytes>): Bytes {
    if chunks == [] then [] else chunks[0] + Concat(chunks[1..])
  }

  function Feed(cfg: Settings, c: Connection, chunks: seq<Bytes>): Connection
    decreases |chunks|
  {
    if chunks == [] then c else Feed(cfg, OnData(cfg, c, chunks[0]), chunks[1..])
  }

  /** How many chunks arrive before one of them trips the limit. */
  function Passed(cfg: Settings, c: Connection, chunks: seq<Bytes>): (k: nat)
    ensures k <= |chunks|
    decreases |chunks|
  {
    if chunks == [] || Trips(cfg, c, chunks[0]) then 0 else 1 + Passed(cfg, OnData(cfg, c, chunks[0]), chunks[1..])
  }

  lemma {:induction false} ClosedStaysClosed(cfg: Settings, c: Connection, chunks: seq<Bytes>)
    requires !c.open
    ensures Feed(cfg, c, chunks) == c
    decreases |chunks|
  {
    if chunks != [] { ClosedStaysClosed(cfg, c, chunks[1..]); }
  }

  /** However a stream of any length is cut, the connection ends up as after one pass over
      all of it, with the same events; unless one call trips the size limit, and then as
      after one pass over what came before, closed with code 1009. */
  lemma {:induction false} ChunksDoNotMatter(cfg: Settings, c: Connection, chunks: seq<Bytes>)
    requires Waiting(c)
    ensures var k := Passed(cfg, c, chunks);
            var d := Whole(cfg, c, Concat(chunks[..k]));
            Feed(cfg, c, chunks) == if k == |chunks| then d else Close(d, 1009)
    decreases |chunks|
  {
    hide Drain, Waiting, Whole;
    NothingArrives(cfg, c);
    if chunks == [] {
    } else if Trips(cfg, c, chunks[0]) {
      assert chunks[..0] == [];
      ClosedStaysClosed(cfg, Close(c, 1009), chunks[1..]);
    } else {
      var d := OnData(cfg, c, chunks[0]);
      var k := Passed(cfg, d, chunks[1..]);
      OnDataIsWhole(cfg, c, chunks[0]);
      StaysWaiting(cfg, c, chunks[0]);
      ChunksDoNotMatter(cfg, d, chunks[1..]);
      assert chunks[..k + 1][0] == chunks[0] && chunks[..k + 1][1..] == chunks[1..][..k];
      TwoChunks(cfg, c, chunks[0], Concat(chunks[1..][..k]));
    }
  }

  lemma OnDataIsWhole(cfg: Settings, c: Connection, data: Bytes)
    requires !Trips(cfg, c, data)
    ensures OnData(cfg, c, data) == Whole(cfg, c, data)
  {
  }

  /** So any two cuts of one stream agree, if neither trips the limit. */
  lemma CutsAgree(cfg: Settings, c: Connection, one: seq<Bytes>, other: seq<Bytes>)
    requires Waiting(c) && Concat(one) == Concat(other)
    requires Passed(cfg, c, one) == |one| && Passed(cfg, c, other) == |other|
    ensures Feed(cfg, c, one) == Feed(cfg, c, other)
  {
    ChunksDoNotMatter(cfg, c, one);
    ChunksDoNotMatter(cfg, c, other);
    assert one[..|one|] == one && other[..|other|] == other;
  }

  /** An empty binary message, masked with zeros. */
  const EMPTY_MESSAGE: Bytes := [0x82, 0x80, 0, 0, 0, 0]

  lemma {:induction false} EmptyMessagesArrive(cfg: Settings, c: Connection, n: nat)
    requires cfg.limit >= 8 && c.open && c.buffer == [] && c.opcode == 0
    ensures Feed(cfg, c, seq(n, _ => EMPTY_MESSAGE)) == c.(events := c.events + seq(n, _ => Data(2, [])))
    ensures Passed(cfg, c, seq(n, _ => EMPTY_MESSAGE)) == n && |Concat(seq(n, _ => EMPTY_MESSAGE))| == 6 * n
    decreases n
  {
    var all := seq(n, _ => EMPTY_MESSAGE);
    if n == 0 {
      assert c.events + seq(0, _ => Data(2, [])) == c.events;
    } else {
      OneEmptyMessage(cfg, c);
      var d := Emit(c, Data(2, []));
      assert all[0] == EMPTY_MESSAGE && all[1..] == seq(n - 1, _ => EMPTY_MESSAGE);
      EmptyMessagesArrive(cfg, d, n - 1);
      assert d.events + seq(n - 1, _ => Data(2, [])) == c.events + seq(n, _ => Data(2, []));
    }
  }

  lemma OneEmptyMessage(cfg: Settings, c: Connection)
    requires cfg.limit >= 8 && c.open && c.buffer == [] && c.opcode == 0
    ensures !Trips(cfg, c, EMPTY_MESSAGE) && OnData(cfg, c, EMPTY_MESSAGE) == Emit(c, Data(2, []))
  {
    var m := EMPTY_MESSAGE;
    assert [] + m == m && m[6..] == [];
    assert ParseFrame(m) == Frame(true, 2, [], 6);
    var d := Emit(c, Data(2, []));
    assert Keep(Accept(cfg, c.(buffer := m), true, 2, []), m[6..]) == d;
    assert Drain(cfg, d) == d;
    assert Drain(cfg, c.(buffer := m)) == d;
  }

  /** Every limit that lets a frame through at all depends on how a stream is cut: enough
      empty messages all arrive one by one, and none of them arrives in one chunk. */
  lemma LimitDependsOnChunks(cfg: Settings, c: Connection, n: nat)
    requires cfg.limit >= 8 && c.open && c.buffer == [] && c.opcode == 0 && 6 * n + 1 >= cfg.limit
    ensures var chunks := seq(n, _ => EMPTY_MESSAGE);
            && Feed(cfg, c, chunks).events == c.events + seq(n, _ => Data(2, []))
            && Feed(cfg, c, [Concat(chunks)]).events == c.events + [CloseSent(1009)]
  {
    EmptyMessagesArrive(cfg, c, n);
    var stream := Concat(seq(n, _ => EMPTY_MESSAGE));
    var one := [stream];
    assert one[1..] == [];
    assert OnData(cfg, c, stream) == Close(c, 1009);
  }

  /* ---- Writing frames ---- */

  function BE(n: nat, width: nat): (b: Bytes)
    ensures |b| == width
  {
    if width == 0 then [] else BE(n / 256, width - 1) + [n % 256]
  }

  lemma {:induction false} BigEndianReads(n: nat, width: nat)
    requires n < Pow256(width)
    ensures BigEndian(BE(n, width)) == n
  {
    if width > 0 {
      BigEndianReads(n / 256, width - 1);
      assert BE(n, width)[..width - 1] == BE(n / 256, width - 1);
    }
  }

  function Len7(length: nat): nat {
    if length < 126 then length else if length <= 0xFFFF then 126 else 127
  }

  /** The shortest form of a length. */
  function LengthBytes(length: nat): (b: Bytes)
    ensures |b| == Extension(Len7(length))
  {
    if length < 126 then [] else if length <= 0xFFFF then BE(length, 2) else BE(length, 8)
  }

  /** A frame as a client must send it. */
  function ClientFrame(fin: bool, opcode: nat, key: Bytes, payload: Bytes): Bytes
    requires opcode < 16 && |key| == 4
  {
    [(if fin then 128 else 0) + opcode, 128 + Len7(|payload|)] + LengthBytes(|payload|) + key + Masked(payload, key)
  }

  lemma PowersOf256()
    ensures Pow256(2) == 0x1_0000 && Pow256(4) == 0x1_0000_0000 && Pow256(8) == 0x1_0000_0000_0000_0000
  {
    assert Pow256(3) == 0x100_0000;
    assert Pow256(6) == 0x1_0000_0000_0000;
  }

  lemma {:induction false} LowBytes(n: nat, width: nat, low: nat)
    requires low <= width
    ensures BE(n, width)[width - low..] == BE(n, low)
  {
    if low > 0 {
      LowBytes(n / 256, width - 1, low - 1);
      assert BE(n, width)[width - low..] == BE(n / 256, width - 1)[width - low..] + [n % 256];
    }
  }

  lemma {:induction false} BigEndianWraps(n: nat, width: nat)
    ensures BigEndian(BE(n, width)) == n % Pow256(width)
  {
    if width > 0 {
      BigEndianWraps(n / 256, width - 1);
      assert BE(n, width)[..width - 1] == BE(n / 256, width - 1);
      ModSplits(n, Pow256(width - 1));
    }
  }

  lemma ModSplits(n: nat, m: nat)
    requires m > 0
    ensures n % (256 * m) == n / 256 % m * 256 + n % 256
  {
    var q, r := n / 256 / m, n / 256 % m;
    assert n / 256 == m * q + r;
    assert n == 256 * (m * q + r) + n % 256;
    assert 256 * (m * q) == (256 * m) * q;
    RemainderIs(n, 256 * m, q, 256 * r + n % 256);
  }

  /** The fifth byte is the top one of the lower half. */
  lemma HighBit(n: nat)
    ensures BE(n, 8)[4] >= 128 <==> n % 0x1_0000_0000 >= 0x8000_0000
    ensures BigEndian(BE(n, 8)[4..]) == n % 0x1_0000_0000
  {
    PowersOf256();
    LowBytes(n, 8, 4);
    BigEndianWraps(n, 4);
    TopByte(n);
    assert BE(n, 8)[4..][0] == BE(n, 8)[4];
  }

  lemma TopByte(n: nat)
    ensures BE(n, 4)[0] >= 128 <==> n % 0x1_0000_0000 >= 0x8000_0000
  {
    var n1 := n / 256;
    var n2 := n1 / 256;
    assert BE(n, 4)[0] == BE(n1, 3)[0] == BE(n2, 2)[0] == BE(n2 / 256, 1)[0] == n2 / 256 % 256;
    ModSplits(n, 0x100_0000);
    ModSplits(n1, 0x1_0000);
    ModSplits(n2, 0x100);
  }

  /** A length is read back exactly unless bit 31 of an eight-byte length is set: then it
      is taken for one of at least 2^64 - 2^31. */
  lemma LengthIsRead(length: nat)
    requires length < 0x1_0000_0000_0000_0000
    ensures var read := FrameLength(Len7(length), LengthBytes(length));
            if length % 0x1_0000_0000 < 0x8000_0000 then read == length else read >= 0xFFFF_FFFF_8000_0000
  {
    PowersOf256();
    if length > 0xFFFF {
      HighBit(length);
      BigEndianReads(length, 8);
    } else if length >= 126 {
      BigEndianReads(length, 2);
    }
  }

  /** Where the parts of a frame are found. */
  lemma FrameParts(fin: bool, opcode: nat, key: Bytes, payload: Bytes, rest: Bytes)
    requires opcode < 16 && |key| == 4
    ensures var buffer := ClientFrame(fin, opcode, key, payload) + rest;
            var start := 6 + Extension(Len7(|payload|));
            && |ClientFrame(fin, opcode, key, payload)| == start + |payload|
            && buffer[0] == (if fin then 128 else 0) + opcode && buffer[1] == 128 + Len7(|payload|)
            && buffer[2..start - 4] == LengthBytes(|payload|)
            && buffer[start - 4..start] == key
            && buffer[start..start + |payload|] == Masked(payload, key)
  {
    var head: Bytes := [(if fin then 128 else 0) + opcode, 128 + Len7(|payload|)];
    var buffer := head + LengthBytes(|payload|) + key + Masked(payload, key) + rest;
    assert buffer == ClientFrame(fin, opcode, key, payload) + rest;
    hide Masked, ClientFrame, LengthBytes;
  }

  /** A frame sent as section 5.2 asks is read back, whatever follows it, exactly when bit
      31 of its length is clear; otherwise no buffer of less than 2^64 - 2^31 bytes holds
      it. */
  lemma FramesAreRead(fin: bool, opcode: nat, key: Bytes, payload: Bytes, rest: Bytes)
    requires opcode < 16 && |key| == 4 && |payload| < 0x1_0000_0000_0000_0000
    ensures var f := ClientFrame(fin, opcode, key, payload);
            && (|payload| % 0x1_0000_0000 < 0x8000_0000 ==> ParseFrame(f + rest) == Frame(fin, opcode, payload, |f|))
            && (|payload| % 0x1_0000_0000 >= 0x8000_0000 && |f + rest| < 0xFFFF_FFFF_8000_0000 ==>
                  ParseFrame(f + rest) == NeedMore)
  {
    hide ClientFrame, LengthBytes, Masked;
    FrameParts(fin, opcode, key, payload, rest);
    LengthIsRead(|payload|);
    MaskTwice(payload, key);
  }

  /** The header the server writes. */
  function ServerHeader(opcode: nat, length: nat): Bytes
    requires opcode < 16
  {
    [128 + opcode, Len7(length)] + LengthBytes(length)
  }

  /** How the other side reads an unmasked frame, by section 5.2. */
  function ReadServerFrame(buffer: Bytes): Parsed {
    if |buffer| < 2 then NeedMore
    else if (buffer[0] / 16) % 8 != 0 || buffer[1] >= 128 then Refused
    else
      var start := 2 + Extension(buffer[1]);
      if |buffer| < start then NeedMore
      else
        var length := if buffer[1] < 126 then buffer[1] else BigEndian(buffer[2..start]);
        if length > |buffer| - start then NeedMore
        else Frame(buffer[0] >= 128, buffer[0] % 16, buffer[start..start + length], start + length)
  }

  lemma ServerHeaderIsRead(opcode: nat, length: nat, rest: Bytes)
    requires opcode < 16 && length < 0x1_0000_0000_0000_0000
    ensures var h := ServerHeader(opcode, length);
            ReadServerFrame(h + rest) == if length > |rest| then NeedMore
                                         else Frame(true, opcode, rest[..length], |h| + length)
  {
    hide BE, BigEndian;
    var h := ServerHeader(opcode, length);
    var buffer := h + rest;
    PowersOf256();
    if length > 0xFFFF { BigEndianReads(length, 8); } else if length >= 126 { BigEndianReads(length, 2); }
    assert buffer[0] == 128 + opcode && buffer[1] == Len7(length);
    assert buffer[2..|h|] == LengthBytes(length);
    if length <= |rest| { assert buffer[|h|..|h| + length] == rest[..length]; }
  }

  /** What Send() writes is one whole frame. */
  lemma SentFramesAreRead(opcode: nat, payload: Bytes, rest: Bytes)
    requires opcode < 16 && |payload| < 0x1_0000_0000_0000_0000
    ensures var f := ServerHeader(opcode, |payload|) + payload;
            ReadServerFrame(f + rest) == Frame(true, opcode, payload, |f|)
  {
    var h := ServerHeader(opcode, |payload|);
    ServerHeaderIsRead(opcode, |payload|, payload + rest);
    assert h + payload + rest == h + (payload + rest);
    assert (payload + rest)[..|payload|] == payload;
  }

  /** What Close() writes when it is given a reason: the length of code and reason, but
      only the reason. */
  function CloseFrame(reason: Bytes): Bytes {
    ServerHeader(8, 2 + |reason|) + reason
  }

  /** So the frame that announces an error is never complete. */
  lemma CloseFramesAreCutShort(reason: Bytes)
    requires 2 + |reason| < 0x1_0000_0000_0000_0000
    ensures ReadServerFrame(CloseFrame(reason)) == NeedMore
  {
    ServerHeaderIsRead(8, 2 + |reason|, reason);
  }

  /* ---- Messages in several frames ---- */

  /** A ping or pong. */
  datatype Control = Control(ping: bool, key: Bytes, payload: Bytes)

  /** A fragment of a message, and the control frames that are sent before it. */
  datatype Piece = Piece(controls: seq<Control>, key: Bytes, payload: Bytes)

  datatype Message = Message(opcode: nat, pieces: seq<Piece>)

  predicate ValidControls(cs: seq<Control>) {
    forall i :: 0 <= i < |cs| ==> |cs[i].key| == 4 && |cs[i].payload| <= 125
  }

  /** Fragments whose length is read back. */
  predicate ValidPieces(pieces: seq<Piece>) {
    forall i :: 0 <= i < |pieces| ==> ValidPiece(pieces[i])
  }

  predicate ValidPiece(p: Piece) {
    && ValidControls(p.controls) && |p.key| == 4
    && |p.payload| < 0x1_0000_0000_0000_0000 && |p.payload| % 0x1_0000_0000 < 0x8000_0000
  }

  function ControlFrames(cs: seq<Control>): Bytes
    requires ValidControls(cs)
  {
    if cs == [] then []
    else ClientFrame(true, if cs[0].ping then 9 else 10, cs[0].key, cs[0].payload) + ControlFrames(cs[1..])
  }

  /** Pings are answered, pongs are not. */
  function Replies(cs: seq<Control>): seq<Event> {
    if cs == [] then [] else (if cs[0].ping then [PongSent(cs[0].payload)] else []) + Replies(cs[1..])
  }

  /** The frames of the pieces: the first has the message's opcode, the others 0. */
  function Frames(opcode: nat, pieces: seq<Piece>): Bytes
    requires ValidPieces(pieces) && opcode < 16
    decreases |pieces|
  {
    if pieces == [] then []
    else
      var p := pieces[0];
      ControlFrames(p.controls) + (ClientFrame(|pieces| == 1, opcode, p.key, p.payload) + Frames(0, pieces[1..]))
  }

  function Payload(pieces: seq<Piece>): Bytes {
    if pieces == [] then [] else pieces[0].payload + Payload(pieces[1..])
  }

  function AllReplies(pieces: seq<Piece>): seq<Event> {
    if pieces == [] then [] else Replies(pieces[0].controls) + AllReplies(pieces[1..])
  }

  /** One more frame is taken from the front of the buffer. */
  lemma DrainFrame(cfg: Settings, c: Connection, fin: bool, opcode: nat, key: Bytes, payload: Bytes, rest: Bytes)
    requires c.open && opcode < 16 && |key| == 4
    requires |payload| < 0x1_0000_0000_0000_0000 && |payload| % 0x1_0000_0000 < 0x8000_0000
    requires c.buffer == ClientFrame(fin, opcode, key, payload) + rest
    ensures var d := Keep(Accept(cfg, c, fin, opcode, payload), rest);
            Drain(cfg, c) == if d.open then Drain(cfg, d) else d
  {
    hide ClientFrame, ParseFrame, Drain, Accept, Keep;
    FramesAreRead(fin, opcode, key, payload, rest);
    assert c.buffer[|ClientFrame(fin, opcode, key, payload)|..] == rest;
    ParseIsStable(c.buffer, []);
    DrainOnce(cfg, c, ParseFrame(c.buffer));
  }

  lemma DrainOnce(cfg: Settings, c: Connection, p: Parsed)
    requires c.open && ParseFrame(c.buffer) == p && p.Frame? && 0 < p.size <= |c.buffer|
    ensures var d := Keep(Accept(cfg, c, p.fin, p.opcode, p.payload), c.buffer[p.size..]);
            Drain(cfg, c) == if d.open then Drain(cfg, d) else d
  {
    hide ParseFrame, Accept;
  }

  /** Section 5.4: control frames may come between fragments, and do not disturb them. */
  lemma {:induction false} ControlsAreAnswered(cfg: Settings, c: Connection, cs: seq<Control>, rest: Bytes)
    requires ValidControls(cs) && c.open && c.buffer == ControlFrames(cs) + rest
    ensures Drain(cfg, c) == Drain(cfg, c.(buffer := rest, events := c.events + Replies(cs)))
    decreases |cs|
  {
    hide Drain, ClientFrame;
    if cs == [] {
      assert c.buffer == rest && c.events + Replies(cs) == c.events;
    } else {
      var f, more := cs[0], ControlFrames(cs[1..]) + rest;
      assert c.buffer == ClientFrame(true, if f.ping then 9 else 10, f.key, f.payload) + more;
      DrainFrame(cfg, c, true, if f.ping then 9 else 10, f.key, f.payload, more);
      var d := c.(buffer := more, events := c.events + if f.ping then [PongSent(f.payload)] else []);
      assert Keep(Accept(cfg, c, true, if f.ping then 9 else 10, f.payload), more) == d;
      ControlsAreAnswered(cfg, d, cs[1..], rest);
      assert d.events + Replies(cs[1..]) == c.events + Replies(cs);
    }
  }

  /** The opcode of the message that a frame belongs to. */
  function MessageOpcode(c: Connection, opcode: nat): nat {
    if c.opcode == 0 then opcode else c.opcode
  }

  /** The frame starts a message, or goes on with one. */
  predicate InPlace(c: Connection, opcode: nat) {
    && c.open && c.opcode in {0, 1, 2}
    && if c.opcode == 0 then (opcode == 1 || opcode == 2) && c.partial == [] else opcode == 0
  }

  /** What a fragment leaves to be done. */
  lemma FragmentIsKept(cfg: Settings, c: Connection, opcode: nat, payload: Bytes, rest: Bytes)
    requires InPlace(c, opcode) && |c.partial| + |payload| < cfg.limit
    ensures Keep(Accept(cfg, c, false, opcode, payload), rest)
         == c.(buffer := rest, opcode := MessageOpcode(c, opcode), partial := c.partial + payload)
  {
  }

  lemma LastFragmentArrives(cfg: Settings, c: Connection, opcode: nat, payload: Bytes, rest: Bytes)
    requires InPlace(c, opcode) && (c.opcode != 0 ==> |c.partial| + |payload| < cfg.limit)
    requires MessageOpcode(c, opcode) == 1 ==> cfg.isUtf8(c.partial + payload)
    ensures Keep(Accept(cfg, c, true, opcode, payload), rest)
         == Connection(true, rest, 0, [], c.events + [Data(MessageOpcode(c, opcode), c.partial + payload)])
  {
    assert [] + payload == payload;
  }

  /** What the first piece leaves to be done; `more` is what follows it. */
  lemma PieceIsRead(cfg: Settings, c: Connection, fin: bool, opcode: nat, p: Piece, more: Bytes)
    requires ValidPiece(p) && InPlace(c, opcode)
    requires c.buffer == ControlFrames(p.controls) + (ClientFrame(fin, opcode, p.key, p.payload) + more)
    requires c.opcode != 0 || !fin ==> |c.partial| + |p.payload| < cfg.limit
    requires fin && MessageOpcode(c, opcode) == 1 ==> cfg.isUtf8(c.partial + p.payload)
    ensures var e := c.events + Replies(p.controls);
            Drain(cfg, c) == Drain(cfg,
              if fin then Connection(true, more, 0, [], e + [Data(MessageOpcode(c, opcode), c.partial + p.payload)])
              else Connection(true, more, MessageOpcode(c, opcode), c.partial + p.payload, e))
  {
    hide Drain, ClientFrame, ControlFrames, Accept, Keep, Replies;
    var frame := ClientFrame(fin, opcode, p.key, p.payload);
    ControlsAreAnswered(cfg, c, p.controls, frame + more);
    var d := c.(buffer := frame + more, events := c.events + Replies(p.controls));
    DrainFrame(cfg, d, fin, opcode, p.key, p.payload, more);
    if fin { LastFragmentArrives(cfg, d, opcode, p.payload, more); } else { FragmentIsKept(cfg, d, opcode, p.payload, more); }
  }

  lemma Unfolded(opcode: nat, pieces: seq<Piece>, rest: Bytes)
    requires ValidPieces(pieces) && pieces != [] && opcode < 16
    ensures var p := pieces[0];
            Frames(opcode, pieces) + rest
            == ControlFrames(p.controls)
               + (ClientFrame(|pieces| == 1, opcode, p.key, p.payload) + (Frames(0, pieces[1..]) + rest))
    ensures Payload(pieces) == pieces[0].payload + Payload(pieces[1..])
    ensures AllReplies(pieces) == Replies(pieces[0].controls) + AllReplies(pieces[1..])
    ensures |pieces| == 1 ==> Frames(0, pieces[1..]) == [] && Payload(pieces[1..]) == [] && AllReplies(pieces[1..]) == []
  {
    hide ClientFrame, ControlFrames, Replies;
  }

  /** A message, or the rest of one, is taken from the front of the buffer. */
  lemma {:induction false} MessageIsRead(cfg: Settings, c: Connection, opcode: nat, pieces: seq<Piece>, rest: Bytes)
    requires ValidPieces(pieces) && pieces != [] && InPlace(c, opcode) && c.buffer == Frames(opcode, pieces) + rest
    requires c.opcode != 0 || |pieces| > 1 ==> |c.partial| + |Payload(pieces)| < cfg.limit
    requires MessageOpcode(c, opcode) == 1 ==> cfg.isUtf8(c.partial + Payload(pieces))
    ensures Drain(cfg, c) == Drain(cfg, Connection(true, rest, 0, [],
              c.events + AllReplies(pieces) + [Data(MessageOpcode(c, opcode), c.partial + Payload(pieces))]))
    decreases |pieces|
  {
    hide Drain, ClientFrame, ControlFrames, Replies, Frames, Payload, AllReplies;
    var p, tail := pieces[0], pieces[1..];
    Unfolded(opcode, pieces, rest);
    assert c.partial + Payload(pieces) == c.partial + p.payload + Payload(tail);
    assert c.events + AllReplies(pieces) == c.events + Replies(p.controls) + AllReplies(tail);
    if |pieces| == 1 {
      assert Payload(pieces) == p.payload && Frames(0, tail) + rest == rest;
      assert AllReplies(pieces) == Replies(p.controls);
      PieceIsRead(cfg, c, true, opcode, p, rest);
    } else {
      PieceIsRead(cfg, c, false, opcode, p, Frames(0, tail) + rest);
      MessageIsRead(cfg, Connection(true, Frames(0, tail) + rest, MessageOpcode(c, opcode), c.partial + p.payload,
                                    c.events + Replies(p.controls)), 0, tail, rest);
    }
  }

  /** A text or binary message that is accepted: UTF-8 if it is text, and below the limit
      if it is fragmented. */
  predicate ValidMessage(cfg: Settings, m: Message) {
    && ValidPieces(m.pieces) && m.pieces != [] && (m.opcode == 1 || m.opcode == 2)
    && (|m.pieces| > 1 ==> |Payload(m.pieces)| < cfg.limit)
    && (m.opcode == 1 ==> cfg.isUtf8(Payload(m.pieces)))
  }

  predicate ValidMessages(cfg: Settings, ms: seq<Message>) {
    forall i :: 0 <= i < |ms| ==> ValidMessage(cfg, ms[i])
  }

  function Stream(cfg: Settings, ms: seq<Message>): Bytes
    requires ValidMessages(cfg, ms)
  {
    if ms == [] then [] else Frames(ms[0].opcode, ms[0].pieces) + Stream(cfg, ms[1..])
  }

  function Arrivals(ms: seq<Message>): seq<Event> {
    if ms == [] then []
    else AllReplies(ms[0].pieces) + [Data(ms[0].opcode, Payload(ms[0].pieces))] + Arrivals(ms[1..])
  }

  lemma {:induction false} StreamIsRead(cfg: Settings, c: Connection, ms: seq<Message>)
    requires ValidMessages(cfg, ms) && c.open && c.opcode == 0 && c.partial == [] && c.buffer == Stream(cfg, ms)
    ensures Drain(cfg, c) == Connection(true, [], 0, [], c.events + Arrivals(ms))
    decreases |ms|
  {
    hide Drain, Frames, Payload, AllReplies;
    if ms == [] {
      DrainNothing(cfg, c);
      assert c.events + Arrivals(ms) == c.events;
    } else {
      var m, rest := ms[0], Stream(cfg, ms[1..]);
      var heard := AllReplies(m.pieces) + [Data(m.opcode, Payload(m.pieces))];
      assert c.partial + Payload(m.pieces) == Payload(m.pieces);
      MessageIsRead(cfg, c, m.opcode, m.pieces, rest);
      assert c.events + AllReplies(m.pieces) + [Data(m.opcode, Payload(m.pieces))] == c.events + heard;
      StreamIsRead(cfg, Connection(true, rest, 0, [], c.events + heard), ms[1..]);
      assert c.events + heard + Arrivals(ms[1..]) == c.events + Arrivals(ms);
    }
  }

  lemma DrainNothing(cfg: Settings, c: Connection)
    requires c.buffer == []
    ensures Drain(cfg, c) == c
  {}

  /** Any number of messages, each in any number of masked frames with pings and pongs in
      between, in chunks cut anywhere: each message arrives once, whole and in order. */
  lemma MessagesArriveWhole(cfg: Settings, ms: seq<Message>, events: seq<Event>, chunks: seq<Bytes>)
    requires ValidMessages(cfg, ms) && Concat(chunks) == Stream(cfg, ms)
    requires Passed(cfg, Connection(true, [], 0, [], events), chunks) == |chunks|
    ensures Feed(cfg, Connection(true, [], 0, [], events), chunks) == Connection(true, [], 0, [], events + Arrivals(ms))
  {
    hide Drain, Stream;
    var c := Connection(true, [], 0, [], events);
    assert Waiting(c);
    ChunksDoNotMatter(cfg, c, chunks);
    assert chunks[..|chunks|] == chunks;
    assert [] + Concat(chunks) == Concat(chunks);
    StreamIsRead(cfg, c.(buffer := Concat(chunks)), ms);
  }
}
