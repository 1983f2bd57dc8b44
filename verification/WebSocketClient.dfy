/** The connection itself: unmasks in place, keeps what is incomplete for the next chunk,
    and is proved to do what the functions of WebSocket say. */
module WebSocketClient {
  import opened Common
  import opened WebSocket

  class Client {
    const cfg: Settings
    var open: bool
    var buffer: Bytes
    var frameOpcode: nat
    var frameBuffer: Bytes
    var events: seq<Event>

    /** With `unread` still to be handled. Once the socket is gone nothing is read again. */
    ghost function With(unread: Bytes): Connection
      reads this
    {
      if open then Connection(true, unread, frameOpcode, frameBuffer, events) else Connection(false, [], 0, [], events)
    }

    ghost function Model(): Connection
      reads this
    {
      With(buffer)
    }

    constructor (cfg: Settings)
      ensures this.cfg == cfg && Model() == Connection(true, [], 0, [], [])
    {
      this.cfg, open, buffer, frameOpcode, frameBuffer, events := cfg, true, [], 0, [], [];
    }

    method CloseWith(code: nat)
      modifies `open, `events
      ensures !open && events == if old(open) then old(events) + [CloseSent(code)] else old(events)
    {
      if open {
        events := events + [CloseSent(code)];
        open := false;
      }
    }

    /** ProcessDataFrame() */
    method ProcessDataFrame(opcode: nat, payload: Bytes)
      requires open
      modifies `open, `events
      ensures With([]) == Keep(Process(cfg, old(With([])), opcode, payload), [])
    {
      match opcode
      case 9 => events := events + [PongSent(payload)];
      case 10 =>
      case 8 => HandleClose(payload);
      case _ =>
        if opcode == 1 && !cfg.isUtf8(payload) { CloseWith(1007); }
        else if opcode == 1 || opcode == 2 { events := events + [Data(opcode, payload)]; }
        else { CloseWith(1002); }
    }

    method HandleClose(payload: Bytes)
      requires open
      modifies `open, `events
      ensures With([]) == OnClose(cfg, old(With([])), payload)
    {
      if |payload| == 1 { CloseWith(1002); return; }
      if |payload| >= 2 {
        var code := Shift8(payload[0], payload[1]);
        TwoBytes(payload);
        var invalid := code < 1000 || code >= 5000;
        if code == 1004 || code == 1005 || code == 1006 || code == 1015 { invalid := true; }
        if invalid { CloseWith(1002); return; }
        if |payload| > 2 && !cfg.isUtf8(payload[2..]) { CloseWith(1002); return; }
      }
      events := events + [CloseEchoed(payload)];
      open := false;
    }

    /** What one frame does. */
    method HandleFrame(fin: bool, opcode: nat, payload: Bytes)
      requires open
      modifies `open, `events, `frameOpcode, `frameBuffer
      ensures With([]) == Keep(Accept(cfg, old(With([])), fin, opcode, payload), [])
    {
      if opcode >= 8 {
        if !fin || |payload| > 125 { CloseWith(1002); return; }
        ProcessDataFrame(opcode, payload);
      } else if frameOpcode == 0 && fin {
        ProcessDataFrame(opcode, payload);
      } else {
        AssembleFrame(fin, opcode, payload);
      }
    }

    method AssembleFrame(fin: bool, opcode: nat, payload: Bytes)
      requires open
      modifies `open, `events, `frameOpcode, `frameBuffer
      ensures With([]) == Keep(Assemble(cfg, old(With([])), fin, opcode, payload), [])
    {
      if frameOpcode != 0 {
        if opcode != 0 { CloseWith(1002); return; }
      } else {
        if opcode == 0 { CloseWith(1002); return; }
        frameOpcode := opcode;
      }
      if |frameBuffer| + |payload| >= cfg.limit { CloseWith(1009); return; }
      frameBuffer := frameBuffer + payload;
      if fin {
        ProcessDataFrame(frameOpcode, frameBuffer);
        frameOpcode := 0;
        frameBuffer := [];
      }
    }

    /** OnSocketData(). `data` is the socket's own chunk: it is used as it is, unless bytes
        were left over from before. */
    method OnSocketData(data: array<Byte>)
      modifies this, data
      ensures Model() == OnData(cfg, old(Model()), old(data[..]))
    {
      if !open { return; }
      if |buffer| + data.Length + 1 >= cfg.limit { CloseWith(1009); return; }
      var view := data;
      if buffer != [] { view := Joined(buffer, data); }
      ghost var expected := OnData(cfg, old(Model()), old(data[..]));
      assert view[..] == old(buffer + data[..]);
      var pos := DrainView(view);
      buffer := view[pos..];
    }

    /** Handles the complete frames of the view; `pos` is where the unread part starts. */
    method DrainView(view: array<Byte>) returns (pos: nat)
      requires open
      modifies view, `open, `events, `frameOpcode, `frameBuffer
      ensures pos <= view.Length && With(view[pos..]) == Drain(cfg, old(With(view[..])))
    {
      hide Drain, Accept, Masked;
      pos := 0;
      assert view[0..] == view[..];
      while open
        invariant pos <= view.Length
        invariant Drain(cfg, With(view[pos..])) == Drain(cfg, old(With(view[..])))
        decreases view.Length - pos, open
      {
        ghost var c := With(view[pos..]);
        ghost var all := view[..];
        var parsed := ReadFrame(view, pos);
        match parsed
        case NeedMore =>
          assert view[pos..] == all[pos..];
          DrainStops(cfg, c);
          return;
        case Refused =>
          DrainRefuses(cfg, c);
          CloseWith(1002);
          DrainClosed(cfg, With(view[pos..]));
        case Frame(fin, opcode, payload, size) =>
          DrainTakes(cfg, c);
          ghost var rest := view[pos + size..];
          assert c.buffer[size..] == rest;
          AcceptIgnoresBuffer(cfg, c, fin, opcode, payload, c.buffer, rest);
          AcceptIgnoresBuffer(cfg, c, fin, opcode, payload, [], rest);
          HandleFrame(fin, opcode, payload);
          pos := pos + size;
      }
      DrainClosed(cfg, With(view[pos..]));
    }
  }

  function Shift8(high: nat, low: Byte): nat {
    high * 256 + low
  }

  lemma TwoBytes(payload: Bytes)
    requires |payload| >= 2
    ensures BigEndian(payload[..2]) == Shift8(payload[0], payload[1])
  {
    assert payload[..2][..1] == [payload[0]];
    assert BigEndian([payload[0]]) == payload[0];
  }

  lemma DrainStops(cfg: Settings, c: Connection)
    requires c.open && ParseFrame(c.buffer) == NeedMore
    ensures Drain(cfg, c) == c
  {}

  lemma DrainRefuses(cfg: Settings, c: Connection)
    requires c.open && ParseFrame(c.buffer) == Refused
    ensures Drain(cfg, c) == Close(c, 1002)
  {}

  lemma DrainClosed(cfg: Settings, c: Connection)
    requires !c.open
    ensures Drain(cfg, c) == c
  {}

  lemma DrainTakes(cfg: Settings, c: Connection)
    requires c.open && ParseFrame(c.buffer).Frame?
    ensures var p := ParseFrame(c.buffer);
            && 0 < p.size <= |c.buffer|
            && Drain(cfg, c) == Drain(cfg, Keep(Accept(cfg, c, p.fin, p.opcode, p.payload), c.buffer[p.size..]))
  {
    ParseIsStable(c.buffer, []);
  }

  /** The left-over bytes with the new chunk behind them. */
  method Joined(front: Bytes, data: array<Byte>) returns (view: array<Byte>)
    ensures fresh(view) && view[..] == front + data[..]
  {
    var n := |front|;
    view := new Byte[n + data.Length];
    for i := 0 to n
      invariant forall j :: 0 <= j < i ==> view[j] == front[j]
    {
      view[i] := front[i];
    }
    for i := 0 to data.Length
      invariant forall j :: 0 <= j < n ==> view[j] == front[j]
      invariant forall j :: 0 <= j < i ==> view[n + j] == data[j]
    {
      view[n + i] := data[i];
    }
    assert view[..n] == front && view[n..] == data[..];
  }

  lemma SubSlice(s: Bytes, pos: nat, i: nat, j: nat)
    requires i <= j && pos + j <= |s|
    ensures s[pos..][i..j] == s[pos + i..pos + j]
  {}

  /** The length in the header at `pos`, and where it ends; 0 if it is not all there. */
  method ReadLength(view: array<Byte>, pos: nat, len7: nat) returns (start: nat, length: nat)
    requires pos + 2 <= view.Length
    ensures if view.Length - pos < 2 + Extension(len7) then start == 0
            else start == 2 + Extension(len7) && length == FrameLength(len7, view[pos + 2..pos + start])
  {
    hide BigEndian, Length64;
    start, length := 2, len7;
    if len7 == 126 {
      if view.Length - pos < 4 { return 0, 0; }
      length, start := ReadBigEndian(view[pos + 2..pos + 4]), 4;
    } else if len7 == 127 {
      if view.Length - pos < 10 { return 0, 0; }
      length, start := ReadLength64(view[pos + 2..pos + 10]), 10;
    }
  }

  /** Reads the frame at `pos`, following the header as far as the bytes reach, and
      unmasks its payload in place. Nothing else in the view changes. */
  method ReadFrame(view: array<Byte>, pos: nat) returns (parsed: Parsed)
    requires pos <= view.Length
    modifies view
    ensures parsed == ParseFrame(old(view[pos..]))
    ensures if parsed.Frame? then 0 < parsed.size <= view.Length - pos && view[pos + parsed.size..] == old(view[pos + parsed.size..])
            else view[..] == old(view[..])
  {
    hide Masked, FrameLength, Flipped, ParseFrame;
    ghost var all := view[..];
    assert view[pos..] == all[pos..];
    ParsesEarly(all, pos);
    if view.Length - pos < 2 { return NeedMore; }
    if view[pos] / 16 % 8 != 0 { return Refused; }
    if view[pos + 1] < 128 { return Refused; }
    var len7 := view[pos + 1] % 128;
    var start, frameLength := ReadLength(view, pos, len7);
    if start == 0 || view.Length - pos < start + 4 { return NeedMore; }
    assert view[pos + 2..pos + start] == all[pos + 2..pos + start];
    ParsesAt(all, pos, start, frameLength);
    var maskKey := view[pos + start..pos + start + 4];
    assert maskKey == all[pos + start..pos + start + 4];
    start := start + 4;
    if frameLength > view.Length - pos - start { return NeedMore; }
    var fin, opcode := view[pos] >= 128, view[pos] % 16;
    assert view[pos + start..pos + start + frameLength] == all[pos + start..pos + start + frameLength];
    Unmask(view, pos + start, frameLength, maskKey);
    parsed := Frame(fin, opcode, view[pos + start..pos + start + frameLength], start + frameLength);
  }

  lemma ParsesEarly(all: Bytes, pos: nat)
    requires pos <= |all|
    ensures |all| - pos < 2 ==> ParseFrame(all[pos..]) == NeedMore
    ensures |all| - pos >= 2 && (all[pos] / 16 % 8 != 0 || all[pos + 1] < 128) ==> ParseFrame(all[pos..]) == Refused
    ensures |all| - pos >= 2 && all[pos] / 16 % 8 == 0 && all[pos + 1] >= 128 ==>
              (|all| - pos < 6 + Extension(all[pos + 1] % 128) ==> ParseFrame(all[pos..]) == NeedMore)
  {
    if |all| - pos >= 2 { assert all[pos..][0] == all[pos] && all[pos..][1] == all[pos + 1]; }
  }

  lemma ParsesAt(all: Bytes, pos: nat, start: nat, length: nat)
    requires |all| - pos >= 2 && all[pos] / 16 % 8 == 0 && all[pos + 1] >= 128
    requires start == 2 + Extension(all[pos + 1] % 128) && |all| - pos >= start + 4
    requires length == FrameLength(all[pos + 1] % 128, all[pos + 2..pos + start])
    ensures ParseFrame(all[pos..])
         == if length > |all| - pos - start - 4 then NeedMore
            else Frame(all[pos] >= 128, all[pos] % 16,
                       Masked(all[pos + start + 4..pos + start + 4 + length], all[pos + start..pos + start + 4]),
                       start + 4 + length)
  {
    hide Masked, FrameLength;
    var b := all[pos..];
    assert b[0] == all[pos] && b[1] == all[pos + 1];
    SubSlice(all, pos, 2, start);
    SubSlice(all, pos, start, start + 4);
    if length <= |all| - pos - start - 4 { SubSlice(all, pos, start + 4, start + 4 + length); }
    assert ParseFrame(b) == ParsePayload(b, b[1] % 128);
  }

  function ReadBigEndian(b: Bytes): (n: nat)
    requires |b| == 2
    ensures n == BigEndian(b)
  {
    TwoBytes(b);
    assert b[..2] == b;
    Shift8(b[0], b[1])
  }

  /** A shift of a signed 32-bit value, then widened to 64 bits without a sign. */
  function Widened(x: int): nat {
    x % 0x1_0000_0000_0000_0000
  }

  lemma SignSpreads(low: int)
    requires 0 <= low < 0x1_0000_0000
    ensures Widened(low - 0x1_0000_0000) == 0xFFFF_FFFF_0000_0000 + low
  {
  }

  lemma BothHalves(b: Bytes)
    requires |b| == 8
    ensures var low := Shift8(Shift8(Shift8(b[4], b[5]), b[6]), b[7]);
            && 0 <= low < 0x1_0000_0000
            && Length64(b) == if b[4] >= 128 then Widened(low - 0x1_0000_0000)
                              else Shift8(Shift8(Shift8(b[0], b[1]), b[2]), b[3]) * 0x1_0000_0000 + low
  {
    hide BigEndian, Widened;
    FourBytes(b[4..]);
    FourBytes(b[..4]);
    EightBytes(b);
    SignSpreads(Shift8(Shift8(Shift8(b[4], b[5]), b[6]), b[7]));
  }

  /** Two numbers whose set bits do not meet are joined by adding them; all-ones in the
      upper half stay all ones. */
  function ReadLength64(b: Bytes): (n: nat)
    requires |b| == 8
    ensures n == Length64(b)
  {
    BothHalves(b);
    var low: int := Shift8(Shift8(Shift8(b[4], b[5]), b[6]), b[7]);
    if b[4] >= 128 then Widened(low - 0x1_0000_0000)
    else Shift8(Shift8(Shift8(b[0], b[1]), b[2]), b[3]) * 0x1_0000_0000 + low
  }

  lemma FourBytes(b: Bytes)
    requires |b| == 4
    ensures BigEndian(b) == Shift8(Shift8(Shift8(b[0], b[1]), b[2]), b[3])
  {
    assert b[..3][..2] == b[..2];
    TwoBytes(b);
  }

  lemma EightBytes(b: Bytes)
    requires |b| == 8
    ensures BigEndian(b) == BigEndian(b[..4]) * 0x1_0000_0000 + BigEndian(b[4..])
  {
    FourBytes(b[4..]);
    assert b[..7][..6] == b[..6] && b[..6][..5] == b[..5] && b[..5][..4] == b[..4];
    assert BigEndian(b[..5]) == Shift8(BigEndian(b[..4]), b[4]);
    assert BigEndian(b[..6]) == Shift8(BigEndian(b[..5]), b[5]);
    assert BigEndian(b[..7]) == Shift8(BigEndian(b[..6]), b[6]);
  }

  /** The first `n` bytes of the payload are unmasked, and nothing else is different. */
  ghost predicate UnmaskedUpTo(before: Bytes, now: Bytes, start: nat, n: nat, key: Bytes)
    requires |key| == 4 && |now| == |before| && start + n <= |before|
  {
    forall j :: 0 <= j < |before| ==>
      now[j] == if start <= j < start + n then Xor(before[j], key[(j - start) % 4]) else before[j]
  }

  lemma UnmaskNext(before: Bytes, now: Bytes, start: nat, n: nat, key: Bytes, k: nat)
    requires |key| == 4 && |now| == |before| && start + n < |before| && UnmaskedUpTo(before, now, start, n, key) && k == n % 4
    ensures UnmaskedUpTo(before, now[start + n := Xor(now[start + n], key[k])], start, n + 1, key)
  {
    hide Xor;
  }

  /** In blocks of four, then the rest. */
  method Unmask(a: array<Byte>, start: nat, length: nat, key: Bytes)
    requires start + length <= a.Length && |key| == 4
    modifies a
    ensures a[start..start + length] == Masked(old(a[start..start + length]), key)
    ensures forall i :: 0 <= i < length ==> Flipped(a[start + i], old(a[start + i]), key[i % 4])
    ensures a[..start] == old(a[..start]) && a[start + length..] == old(a[start + length..])
  {
    hide Xor, UnmaskedUpTo, Flipped;
    ghost var before := a[..];
    NothingUnmasked(before, start, key);
    var i: nat := 0;
    while i < length - length % 4
      invariant i % 4 == 0 && i <= length
      invariant UnmaskedUpTo(before, a[..], start, i, key)
    {
      UnmaskNext(before, a[..], start, i, key, 0);
      a[start + i] := Xor(a[start + i], key[0]);
      UnmaskNext(before, a[..], start, i + 1, key, 1);
      a[start + i + 1] := Xor(a[start + i + 1], key[1]);
      UnmaskNext(before, a[..], start, i + 2, key, 2);
      a[start + i + 2] := Xor(a[start + i + 2], key[2]);
      UnmaskNext(before, a[..], start, i + 3, key, 3);
      a[start + i + 3] := Xor(a[start + i + 3], key[3]);
      i := i + 4;
    }
    while i < length
      invariant i <= length
      invariant UnmaskedUpTo(before, a[..], start, i, key)
    {
      UnmaskNext(before, a[..], start, i, key, i % 4);
      a[start + i] := Xor(a[start + i], key[i % 4]);
      i := i + 1;
    }
    AllUnmasked(before, a[..], start, length, key);
    AllFlipped(before, a[..], start, length, key);
    assert forall i :: 0 <= i < length ==> Flipped(a[..][start + i], before[start + i], key[i % 4]);
  }

  lemma AllFlipped(before: Bytes, now: Bytes, start: nat, n: nat, key: Bytes)
    requires |key| == 4 && |now| == |before| && start + n <= |before| && UnmaskedUpTo(before, now, start, n, key)
    ensures forall i :: 0 <= i < n ==> Flipped(now[start + i], before[start + i], key[i % 4])
  {
    hide Xor, Flipped;
    forall i | 0 <= i < n ensures Flipped(now[start + i], before[start + i], key[i % 4]) {
      assert now[start + i] == Xor(before[start + i], key[i % 4]);
      XorFlips(before[start + i], key[i % 4]);
    }
  }

  lemma NothingUnmasked(before: Bytes, start: nat, key: Bytes)
    requires |key| == 4 && start <= |before|
    ensures UnmaskedUpTo(before, before, start, 0, key)
  {}

  lemma AllUnmasked(before: Bytes, now: Bytes, start: nat, n: nat, key: Bytes)
    requires |key| == 4 && |now| == |before| && start + n <= |before| && UnmaskedUpTo(before, now, start, n, key)
    ensures now[start..start + n] == Masked(before[start..start + n], key)
    ensures now[..start] == before[..start] && now[start + n..] == before[start + n..]
  {
    hide Xor;
  }

  /** WriteDataFrameHeader() and GetDataFrameHeaderSize() */
  method WriteDataFrameHeader(header: array<Byte>, opcode: nat, length: nat) returns (size: nat)
    requires header.Length >= 10 && opcode < 16 && length < 0x1_0000_0000_0000_0000
    modifies header
    ensures size <= header.Length && header[..size] == ServerHeader(opcode, length)
  {
    header[0] := 128 + opcode;
    if length >= 126 {
      if length > 0xFFFF {
        header[1] := 127;
        WriteBigEndian(header, 8, length);
        size := 10;
      } else {
        header[1] := 126;
        WriteBigEndian(header, 2, length);
        size := 4;
      }
    } else {
      header[1] := length;
      size := 2;
    }
    assert header[..size] == header[..2] + header[2..size];
  }

  /** The bytes from 2 on, the last one first. */
  method WriteBigEndian(header: array<Byte>, width: nat, n: nat)
    requires header.Length >= 2 + width
    modifies header
    ensures header[2..2 + width] == BE(n, width)
    ensures header[0] == old(header[0]) && header[1] == old(header[1])
  {
    var left: nat, rest: nat := width, n;
    while left > 0
      invariant left <= width
      invariant BE(rest, left) + header[2 + left..2 + width] == BE(n, width)
      invariant header[0] == old(header[0]) && header[1] == old(header[1])
    {
      left := left - 1;
      header[2 + left] := rest % 256;
      rest := rest / 256;
    }
  }
}
